/**
 The write-ahead log: size and date rotation, batched fsync and a separately persisted
 sequence counter, with crashes that lose whole unsynced trailing records.
 */
module Wal {
  import opened Common

  /** A written line: its sequence number and its length in bytes. */
  datatype Record = Record(seqNo: nat, size: nat)

  /** A segment file: `{date}.jsonl` for index 0, `{date}.{idx}.jsonl` after that. */
  datatype Segment = Segment(date: int, idx: nat)

  type Files = map<Segment, seq<Record>>

  function Size(records: seq<Record>): nat {
    if records == [] then 0 else Size(records[..|records| - 1]) + records[|records| - 1].size
  }

  /** The reader's sort key: date, then rotation index. */
  predicate Before(a: Segment, b: Segment) { a.date < b.date || (a.date == b.date && a.idx < b.idx) }

  predicate Increasing(segs: seq<Segment>) {
    forall i, j :: 0 <= i < j < |segs| ==> Before(segs[i], segs[j])
  }

  /** `segs` is the sorted listing of the directory. */
  ghost predicate Lists(segs: seq<Segment>, files: Files) {
    Increasing(segs) && (forall k :: k in segs <==> k in files)
  }

  function Concat(files: Files, segs: seq<Segment>): seq<Record>
    requires forall k :: k in segs ==> k in files
  {
    if segs == [] then [] else Concat(files, segs[..|segs| - 1]) + files[segs[|segs| - 1]]
  }

  // ---- opening ----

  predicate HasRoom(files: Files, maxBytes: int, seg: Segment) { seg !in files || Size(files[seg]) < maxBytes }

  predicate FirstRoom(files: Files, maxBytes: int, seg: Segment) {
    && HasRoom(files, maxBytes, seg)
    && forall j :: 0 <= j < seg.idx ==> !HasRoom(files, maxBytes, Segment(seg.date, j))
  }

  /** Segments of a date from an index on: what the search can still run into. */
  function Remaining(files: Files, date: int, idx: nat): set<Segment> {
    set k | k in files && k.date == date && k.idx >= idx
  }

  /** The search loop's result: the first index with room. */
  function Find(files: Files, maxBytes: int, date: int, from: nat): (seg: Segment)
    requires forall j :: 0 <= j < from ==> !HasRoom(files, maxBytes, Segment(date, j))
    ensures seg.date == date && FirstRoom(files, maxBytes, seg)
    decreases |Remaining(files, date, from)|
  {
    if HasRoom(files, maxBytes, Segment(date, from)) then Segment(date, from)
    else
      RemainingShrinks(files, date, from);
      Find(files, maxBytes, date, from + 1)
  }

  lemma RemainingShrinks(files: Files, date: int, idx: nat)
    requires Segment(date, idx) in files
    ensures |Remaining(files, date, idx + 1)| < |Remaining(files, date, idx)|
  {
    assert Remaining(files, date, idx) == Remaining(files, date, idx + 1) + {Segment(date, idx)};
  }

  // ---- the writer ----

  datatype Config = Config(maxBytes: int, fsyncEveryN: int) {
    /** The most records that may be waiting for a sync, plus one. */
    function Batch(): nat { Max(1, fsyncEveryN) }
  }

  /**
   `synced` counts the durable records per file, `counter` is the persisted sequence
   number. `order` and `log` record the files in creation order and the surviving
   records in append order.
   */
  datatype State = State(
    files: Files, synced: map<Segment, nat>, counter: nat,
    seqNo: nat, sinceSync: nat, current: Segment, isOpen: bool,
    order: seq<Segment>, log: seq<Record>)

  /** Open (and create if needed) a segment for appending. */
  function OpenSegment(s: State, seg: Segment): State {
    if seg in s.files then s.(current := seg, isOpen := true)
    else s.(files := s.files[seg := []], synced := s.synced[seg := 0],
            current := seg, isOpen := true, order := s.order + [seg])
  }

  function Fsync(s: State): State
    requires s.current in s.files
  {
    s.(synced := s.synced[s.current := |s.files[s.current]|])
  }

  function MaybeRotate(c: Config, s: State, date: int): State
    requires s.current in s.files
  {
    if !s.isOpen then s
    else if date != s.current.date then OpenSegment(Fsync(s), Find(s.files, c.maxBytes, date, 0))
    else if Size(s.files[s.current]) >= c.maxBytes then
      OpenSegment(Fsync(s), Segment(s.current.date, s.current.idx + 1))
    else s
  }

  function Write(s: State, size: nat): State
    requires s.current in s.files
  {
    var r := Record(s.seqNo + 1, size);
    s.(files := s.files[s.current := s.files[s.current] + [r]], seqNo := s.seqNo + 1,
       sinceSync := s.sinceSync + 1, log := s.log + [r])
  }

  function SyncAll(s: State): State
    requires s.current in s.files
  {
    Fsync(s).(counter := s.seqNo, sinceSync := 0)
  }

  /** After close the number is still spent, but nothing is written. */
  function Append(c: Config, s: State, date: int, size: nat): State
    requires s.current in s.files
  {
    if !s.isOpen then s.(seqNo := s.seqNo + 1)
    else
      var t := Write(MaybeRotate(c, s, date), size);
      if c.fsyncEveryN == 0 || t.sinceSync >= c.fsyncEveryN then SyncAll(t) else t
  }

  function Flush(s: State): State
    requires s.current in s.files
  {
    if s.isOpen then SyncAll(s) else s
  }

  function Close(s: State): State
    requires s.current in s.files
  {
    if s.isOpen then Fsync(s).(counter := s.seqNo, isOpen := false) else s.(counter := s.seqNo)
  }

  /** A crash keeps some synced-or-longer part of the open file. */
  function Crash(s: State, keep: nat): State
    requires s.current in s.files && keep <= |s.files[s.current]| && |s.files[s.current]| - keep <= |s.log|
  {
    var lost := |s.files[s.current]| - keep;
    s.(files := s.files[s.current := s.files[s.current][..keep]],
       synced := s.synced[s.current := keep], log := s.log[..|s.log| - lost], isOpen := false)
  }

  /** A new writer on what is on disk. */
  function Reopen(c: Config, s: State, date: int): State {
    OpenSegment(s.(seqNo := s.counter, sinceSync := 0), Find(s.files, c.maxBytes, date, 0))
  }

  /** A writer on an empty directory. */
  function Boot(c: Config, date: int): State {
    Reopen(c, EmptyDisk(date), date)
  }

  // ---- invariants ----

  ghost predicate Tidy(c: Config, s: State) {
    && Lists(s.order, s.files) && s.synced.Keys == s.files.Keys
    && s.order != [] && s.order[|s.order| - 1] == s.current
    && s.log == Concat(s.files, s.order)
    && (forall j :: 0 <= j < s.current.idx ==> !HasRoom(s.files, c.maxBytes, Segment(s.current.date, j)))
  }

  predicate Durable(s: State) {
    && s.synced.Keys == s.files.Keys && s.current in s.files
    && (forall k :: k in s.files && k != s.current ==> s.synced[k] == |s.files[k]|)
    && s.synced[s.current] <= |s.files[s.current]| <= s.synced[s.current] + s.sinceSync
    && (!s.isOpen ==> s.synced[s.current] == |s.files[s.current]|)
  }

  /** `slack` bounds how far logged numbers can be ahead of the counter. */
  predicate Counted(c: Config, slack: nat, s: State) {
    && (s.isOpen ==> s.counter + s.sinceSync == s.seqNo && s.sinceSync <= c.Batch() - 1)
    && (forall i :: 0 <= i < |s.log| ==> s.log[i].seqNo <= s.counter + slack)
    && (!s.isOpen ==> s.counter <= s.seqNo)
  }

  ghost predicate Inv(c: Config, slack: nat, s: State) { Tidy(c, s) && Durable(s) && Counted(c, slack, s) }

  // -- Tidy --

  lemma {:induction false} ConcatSame(f: Files, g: Files, segs: seq<Segment>)
    requires forall k :: k in segs ==> k in f && k in g && f[k] == g[k]
    ensures Concat(f, segs) == Concat(g, segs)
  {
    if segs == [] {
    } else {
      ConcatSame(f, g, segs[..|segs| - 1]);
    }
  }

  lemma LastIsGreatest(segs: seq<Segment>, k: Segment)
    requires Increasing(segs) && k in segs
    ensures k == segs[|segs| - 1] || Before(k, segs[|segs| - 1])
    ensures k in segs[..|segs| - 1] ==> k != segs[|segs| - 1]
  {}

  /** Rewriting only the last file rewrites only the tail of the log. */
  lemma ConcatLast(files: Files, order: seq<Segment>, records: seq<Record>)
    requires Increasing(order) && order != [] && forall k :: k in order ==> k in files
    ensures Concat(files[order[|order| - 1] := records], order)
            == Concat(files, order[..|order| - 1]) + records
  {
    var last, rest := order[|order| - 1], order[..|order| - 1];
    forall k | k in rest ensures k != last { LastIsGreatest(order, k); }
    ConcatSame(files[last := records], files, rest);
  }

  /** Opening the segment the search finds appends it to the order, or reopens the last one. */
  lemma OpenKeepsTidy(c: Config, s: State, seg: Segment)
    requires Tidy(c, s) && (seg == s.current || Before(s.current, seg))
    requires forall j :: 0 <= j < seg.idx ==> !HasRoom(s.files, c.maxBytes, Segment(seg.date, j))
    ensures Tidy(c, OpenSegment(s, seg))
  {
    if seg in s.files {
      LastIsGreatest(s.order, seg);
    } else {
      NewLast(s, seg);
      StillFull(c, s.files, s.files[seg := []], seg);
    }
  }

  lemma StillFull(c: Config, f: Files, g: Files, seg: Segment)
    requires forall j :: 0 <= j < seg.idx ==> !HasRoom(f, c.maxBytes, Segment(seg.date, j))
    requires forall k :: k in f && k != seg ==> k in g && g[k] == f[k]
    ensures forall j :: 0 <= j < seg.idx ==> !HasRoom(g, c.maxBytes, Segment(seg.date, j))
  {
    forall j | 0 <= j < seg.idx ensures !HasRoom(g, c.maxBytes, Segment(seg.date, j)) {
      assert !HasRoom(f, c.maxBytes, Segment(seg.date, j));
    }
  }

  /** A new empty file behind all others joins the listing and adds no records. */
  lemma NewLast(s: State, seg: Segment)
    requires Lists(s.order, s.files) && s.order != [] && seg !in s.files
    requires Before(s.order[|s.order| - 1], seg)
    ensures Lists(s.order + [seg], s.files[seg := []])
    ensures Concat(s.files[seg := []], s.order + [seg]) == Concat(s.files, s.order)
  {
    var order, files := s.order + [seg], s.files[seg := []];
    LastIsGreatestOf(s.order);
    forall i, j | 0 <= i < j < |order| ensures Before(order[i], order[j]) {
      if j == |s.order| { assert order[i] in s.order; }
    }
    assert forall k :: k in order <==> k in files;
    assert order[..|s.order|] == s.order;
    ConcatSame(files, s.files, s.order);
    assert Concat(files, order) == Concat(files, s.order) + [];
  }

  /** On the same or a later date the search never lands before the last segment. */
  lemma FoundIsLast(c: Config, s: State, date: int)
    requires Tidy(c, s) && date >= s.current.date
    ensures var seg := Find(s.files, c.maxBytes, date, 0);
      seg == s.current || Before(s.current, seg)
  {
    LastIsGreatestOf(s.order);
  }

  lemma LastIsGreatestOf(order: seq<Segment>)
    requires Increasing(order) && order != []
    ensures forall k :: k in order ==> k == order[|order| - 1] || Before(k, order[|order| - 1])
  {
    forall k | k in order { LastIsGreatest(order, k); }
  }

  lemma RotateKeepsTidy(c: Config, s: State, date: int)
    requires Tidy(c, s) && s.current in s.files && date >= s.current.date
    ensures Tidy(c, MaybeRotate(c, s, date))
  {
    hide Tidy;
    if s.isOpen {
      TidyFsync(c, s);
      if date != s.current.date {
        FoundIsLast(c, s, date);
        OpenKeepsTidy(c, Fsync(s), Find(s.files, c.maxBytes, date, 0));
      } else if Size(s.files[s.current]) >= c.maxBytes {
        FullSoFar(c, s);
        OpenKeepsTidy(c, Fsync(s), Segment(s.current.date, s.current.idx + 1));
      }
    }
  }

  lemma TidyFsync(c: Config, s: State)
    requires Tidy(c, s) && s.current in s.files
    ensures Tidy(c, Fsync(s))
  {}

  lemma FullSoFar(c: Config, s: State)
    requires Tidy(c, s) && !HasRoom(s.files, c.maxBytes, s.current)
    ensures forall j :: 0 <= j <= s.current.idx ==> !HasRoom(s.files, c.maxBytes, Segment(s.current.date, j))
  {
    assert s.current == Segment(s.current.date, s.current.idx);
  }

  lemma WriteKeepsTidy(c: Config, s: State, size: nat)
    requires Tidy(c, s) && s.current in s.files
    ensures Tidy(c, Write(s, size))
  {
    var t := Write(s, size);
    ConcatLast(s.files, s.order, t.files[s.current]);
    assert Concat(s.files, s.order) == Concat(s.files, s.order[..|s.order| - 1]) + s.files[s.current];
    forall j | 0 <= j < t.current.idx ensures !HasRoom(t.files, c.maxBytes, Segment(t.current.date, j)) {
      assert !HasRoom(s.files, c.maxBytes, Segment(s.current.date, j));
    }
  }

  lemma CrashKeepsTidy(c: Config, s: State, keep: nat)
    requires Tidy(c, s) && s.current in s.files && keep <= |s.files[s.current]|
    ensures |s.files[s.current]| - keep <= |s.log| && Tidy(c, Crash(s, keep))
  {
    hide HasRoom, Concat, Increasing;
    var last := s.files[s.current];
    TailOfLog(s);
    ConcatLast(s.files, s.order, last[..keep]);
    StillFull(c, s.files, s.files[s.current := last[..keep]], s.current);
    Truncate(Concat(s.files, s.order[..|s.order| - 1]), last, keep);
  }

  lemma Truncate(rest: seq<Record>, last: seq<Record>, keep: nat)
    requires keep <= |last|
    ensures (rest + last)[..|rest + last| - (|last| - keep)] == rest + last[..keep]
  {}

  /** The log ends with the records of the last file. */
  lemma TailOfLog(s: State)
    requires s.order != [] && s.order[|s.order| - 1] == s.current && (forall k :: k in s.order ==> k in s.files)
    requires s.log == Concat(s.files, s.order)
    ensures s.log == Concat(s.files, s.order[..|s.order| - 1]) + s.files[s.current]
  {}

  // -- crashes, also in the middle of a call --

  /** Where a crash can hit: between calls, or inside one of them. */
  datatype Moment =
    | Idle
    | Rotated(date: int)              // an append has rotated and not yet written
    | Written(date: int, size: nat)   // an append has written its record
    | BatchSynced(date: int, size: nat) // and synced the full batch, with the counter still to come
    | Synced                          // a flush or rotation has synced, with the rest still to come
    | Closing                         // a close has written the counter and not yet synced

  /** The record of the append under way is on disk. */
  predicate InFlight(at: Moment) { at.Written? || at.BatchSynced? }

  predicate Reaches(c: Config, s: State, at: Moment)
    requires s.current in s.files
  {
    match at
    case Idle => true
    case Rotated(date) => date >= s.current.date
    case Written(date, _) => s.isOpen && date >= s.current.date
    case BatchSynced(date, _) =>
      s.isOpen && date >= s.current.date && (c.fsyncEveryN == 0 || s.sinceSync + 1 >= c.fsyncEveryN)
    case Synced => s.isOpen
    case Closing => true
  }

  /** The state in which the crash finds the writer. */
  function When(c: Config, s: State, at: Moment): State
    requires s.current in s.files
  {
    match at
    case Idle => s
    case Rotated(date) => MaybeRotate(c, s, date)
    case Written(date, size) => Write(MaybeRotate(c, s, date), size)
    case BatchSynced(date, size) => Fsync(Write(MaybeRotate(c, s, date), size))
    case Synced => Fsync(s)
    case Closing => s.(counter := s.seqNo)
  }

  /** Enough slack for a crash at this moment: in flight it takes one number more. */
  predicate Covers(c: Config, slack: nat, at: Moment) {
    slack >= c.Batch() - 1 && (InFlight(at) ==> slack >= c.Batch())
  }

  // -- runs --

  datatype Step =
    | Appended(date: int, size: nat)
    | Flushed
    | Closed
    | Crashed(at: Moment, keep: nat, date: int)

  /** A crash that finds state `s` keeps what was synced and is followed by a start on no earlier date. */
  predicate CanKeep(s: State, keep: nat, date: int) {
    && s.current in s.files && s.current in s.synced && date >= s.current.date
    && s.synced[s.current] <= keep <= |s.files[s.current]| && |s.files[s.current]| - keep <= |s.log|
  }

  /** A step is possible when dates do not go back and a crash keeps what was synced. */
  predicate Possible(c: Config, s: State, step: Step)
    requires s.current in s.files
  {
    match step
    case Appended(date, _) => date >= s.current.date
    case Crashed(at, keep, date) => Reaches(c, s, at) && CanKeep(When(c, s, at), keep, date)
    case _ => true
  }

  function Do(c: Config, s: State, step: Step): State
    requires s.current in s.files && Possible(c, s, step)
  {
    match step
    case Appended(date, size) => Append(c, s, date, size)
    case Flushed => Flush(s)
    case Closed => Close(s)
    case Crashed(at, keep, date) => Reopen(c, Crash(When(c, s, at), keep), date)
  }

  lemma AppendPreserves(c: Config, slack: nat, s: State, date: int, size: nat)
    requires Inv(c, slack, s) && date >= s.current.date && slack >= c.Batch() - 1
    ensures Inv(c, slack, Append(c, s, date, size))
  {
    hide Tidy, Find, MaybeRotate, Write, SyncAll, Durable, Counted;
    InvIsCurrent(c, slack, s);
    if s.isOpen {
      RotateKeepsTidy(c, s, date);
      RotateKeepsRest(c, slack, s, date);
      var t := MaybeRotate(c, s, date);
      DurableCurrent(t);
      WriteKeepsTidy(c, t, size);
      WriteCounts(c, slack, t, size);
      TidySynced(c, Write(t, size));
    } else {
      TidyNumber(c, s);
      RaisedAppend(c, slack, s);
    }
  }

  lemma InvIsCurrent(c: Config, slack: nat, s: State)
    requires Inv(c, slack, s)
    ensures s.current in s.files && s.current in s.synced
  {}

  lemma DurableCurrent(s: State)
    requires Durable(s)
    ensures s.current in s.files
  {}

  /** One more record, and the batch sync when it is due, keep the books. */
  lemma WriteCounts(c: Config, slack: nat, s: State, size: nat)
    requires Durable(s) && Counted(c, slack, s) && s.isOpen && slack >= c.Batch() - 1
    ensures var t := Write(s, size);
      && t.current in t.files
      && (c.fsyncEveryN == 0 || t.sinceSync >= c.fsyncEveryN ==> Durable(SyncAll(t)) && Counted(c, slack, SyncAll(t)))
      && (c.fsyncEveryN != 0 && t.sinceSync < c.fsyncEveryN ==> Durable(t) && Counted(c, slack, t))
  {}

  lemma RaisedAppend(c: Config, slack: nat, s: State)
    requires Durable(s) && Counted(c, slack, s) && !s.isOpen
    ensures Durable(s.(seqNo := s.seqNo + 1)) && Counted(c, slack, s.(seqNo := s.seqNo + 1))
  {}

  /** Syncing and numbering do not touch the files. */
  lemma TidySynced(c: Config, s: State)
    requires Tidy(c, s) && s.current in s.files
    ensures Tidy(c, SyncAll(s)) && Tidy(c, Fsync(s))
  {}

  lemma TidyNumber(c: Config, s: State)
    requires Tidy(c, s)
    ensures Tidy(c, s.(seqNo := s.seqNo + 1)) && Tidy(c, s.(counter := s.seqNo))
  {}

  lemma RotateKeepsRest(c: Config, slack: nat, s: State, date: int)
    requires Durable(s) && Counted(c, slack, s) && s.isOpen
    ensures SameBooks(c, slack, s, MaybeRotate(c, s, date))
  {
    hide Find, Size, SameBooks;
    if date != s.current.date {
      OpenAfterSync(c, slack, s, Find(s.files, c.maxBytes, date, 0));
    } else {
      OpenAfterSync(c, slack, s, Segment(s.current.date, s.current.idx + 1));
      SameBooksItself(c, slack, s);
    }
  }

  /** `t` is sound and has the same log, number and batch count as `s`. */
  predicate SameBooks(c: Config, slack: nat, s: State, t: State) {
    && Durable(t) && Counted(c, slack, t) && t.isOpen && t.counter == s.counter
    && t.seqNo == s.seqNo && t.log == s.log && t.sinceSync == s.sinceSync
  }

  lemma SameBooksItself(c: Config, slack: nat, s: State)
    requires Durable(s) && Counted(c, slack, s) && s.isOpen
    ensures SameBooks(c, slack, s, s)
  {}

  lemma OpenAfterSync(c: Config, slack: nat, s: State, seg: Segment)
    requires Durable(s) && Counted(c, slack, s) && s.isOpen
    ensures SameBooks(c, slack, s, OpenSegment(Fsync(s), seg))
  {}

  /** What a new writer can be started on: an empty directory, or durable segments of no later date. */
  ghost predicate Reopenable(c: Config, slack: nat, disk: State, date: int) {
    || disk == EmptyDisk(date)
    || (Tidy(c, disk) && AtRest(slack, Renumbered(disk)) && date >= disk.current.date)
  }

  function EmptyDisk(date: int): State { State(map[], map[], 0, 0, 0, Segment(date, 0), false, [], []) }

  function Renumbered(disk: State): State { disk.(seqNo := disk.counter, sinceSync := 0) }

  lemma ReopenEstablishes(c: Config, slack: nat, disk: State, date: int)
    ensures Reopenable(c, slack, disk, date) ==> Inv(c, slack, Reopen(c, disk, date))
  {
    hide Tidy, Durable, Counted, Find, AtRest;
    if disk == EmptyDisk(date) {
      BootEstablishes(c, slack, date);
    } else if Reopenable(c, slack, disk, date) {
      TidyNumbers(c, disk, disk.counter, 0);
      FoundIsLast(c, Renumbered(disk), date);
      OpenKeepsTidy(c, Renumbered(disk), Find(disk.files, c.maxBytes, date, 0));
      OpenBooks(c, slack, Renumbered(disk), Find(disk.files, c.maxBytes, date, 0));
    }
  }

  /** The books a crash finds: what is not durable is less than a batch besides the record in flight. */
  predicate Found(c: Config, slack: nat, s: State, m: State, at: Moment) {
    && Durable(m)
    && (forall i :: 0 <= i < |m.log| ==> m.log[i].seqNo <= m.counter + slack)
    && m.log == (if InFlight(at) then s.log + [Record(s.seqNo + 1, at.size)] else s.log)
    && |m.files[m.current]| - m.synced[m.current] <= c.Batch() - 1 + (if InFlight(at) then 1 else 0)
  }

  lemma WhenFound(c: Config, slack: nat, s: State, at: Moment)
    requires Inv(c, slack, s) && Reaches(c, s, at) && Covers(c, slack, at)
    ensures Tidy(c, When(c, s, at)) && Found(c, slack, s, When(c, s, at), at)
  {
    hide Tidy, Find, MaybeRotate;
    InvIsCurrent(c, slack, s);
    match at {
      case Idle =>
      case Rotated(date) => RotatedFound(c, slack, s, date);
      case Written(date, size) =>
        RotatedFound(c, slack, s, date);
        WriteKeepsTidy(c, MaybeRotate(c, s, date), size);
      case BatchSynced(date, size) =>
        RotatedFound(c, slack, s, date);
        WriteKeepsTidy(c, MaybeRotate(c, s, date), size);
        TidySynced(c, Write(MaybeRotate(c, s, date), size));
      case Synced => TidySynced(c, s);
      case Closing => TidyNumber(c, s);
    }
  }

  lemma RotatedFound(c: Config, slack: nat, s: State, date: int)
    requires Inv(c, slack, s) && date >= s.current.date
    ensures var t := MaybeRotate(c, s, date);
      Tidy(c, t) && (s.isOpen ==> SameBooks(c, slack, s, t)) && (!s.isOpen ==> t == s)
  {
    hide Tidy, SameBooks, Durable, Counted, Find;
    InvIsCurrent(c, slack, s);
    RotateKeepsTidy(c, s, date);
    if s.isOpen { RotateKeepsRest(c, slack, s, date); }
  }

  /** Whatever a crash leaves of a sound writer's files, at any moment, can be reopened. */
  lemma CrashIsReopenable(c: Config, slack: nat, s: State, at: Moment, keep: nat, date: int)
    requires Inv(c, slack, s) && Covers(c, slack, at) && Possible(c, s, Crashed(at, keep, date))
    ensures Reopenable(c, slack, Crash(When(c, s, at), keep), date)
  {
    hide Tidy, Durable, When;
    InvIsCurrent(c, slack, s);
    WhenFound(c, slack, s, at);
    CrashKeepsTidy(c, When(c, s, at), keep);
    CrashBooks(slack, When(c, s, at), keep);
  }

  lemma TidyNumbers(c: Config, s: State, seqNo: nat, sinceSync: nat)
    requires Tidy(c, s)
    ensures Tidy(c, s.(seqNo := seqNo, sinceSync := sinceSync))
  {}

  /** What a crash leaves is durable and numbered no further ahead of the counter. */
  lemma CrashBooks(slack: nat, s: State, keep: nat)
    requires Durable(s) && forall i :: 0 <= i < |s.log| ==> s.log[i].seqNo <= s.counter + slack
    requires s.current in s.synced
    requires s.synced[s.current] <= keep <= |s.files[s.current]| && |s.files[s.current]| - keep <= |s.log|
    ensures AtRest(slack, Renumbered(Crash(s, keep)))
  {}

  /** Everything durable and nothing pending: a stopped writer. */
  predicate AtRest(slack: nat, s: State) {
    && s.synced.Keys == s.files.Keys && s.current in s.files && s.sinceSync == 0 && s.seqNo == s.counter
    && (forall k :: k in s.files ==> s.synced[k] == |s.files[k]|)
    && (forall i :: 0 <= i < |s.log| ==> s.log[i].seqNo <= s.counter + slack)
  }

  lemma OpenBooks(c: Config, slack: nat, s: State, seg: Segment)
    requires AtRest(slack, s)
    ensures Durable(OpenSegment(s, seg)) && Counted(c, slack, OpenSegment(s, seg))
  {}

  lemma DoPreserves(c: Config, slack: nat, s: State, step: Step)
    requires Inv(c, slack, s) && slack >= c.Batch() - 1
    requires Possible(c, s, step) && (step.Crashed? ==> Covers(c, slack, step.at))
    ensures Inv(c, slack, Do(c, s, step))
  {
    hide When, Covers;
    match step {
      case Appended(date, size) => AppendPreserves(c, slack, s, date, size);
      case Flushed =>
      case Closed =>
      case Crashed(at, keep, date) =>
        CrashIsReopenable(c, slack, s, at, keep, date);
        ReopenEstablishes(c, slack, Crash(When(c, s, at), keep), date);
    }
  }

  lemma BootEstablishes(c: Config, slack: nat, date: int)
    ensures Inv(c, slack, Boot(c, date))
  {
    var s := Boot(c, date);
    assert s.current == Segment(date, 0) by {
      var seg := Find(map[], c.maxBytes, date, 0);
      assert HasRoom(map[], c.maxBytes, Segment(date, 0));
    }
    assert Concat(s.files, [s.current]) == Concat(s.files, []) + [];
  }

  /**
   A run of one or more writer processes over one directory, empty or left behind by
   others, with slack for its crashes: a batch less one when none hits a record in
   flight, else a batch.
   */
  ghost predicate Execution(c: Config, slack: nat, states: seq<State>, steps: seq<Step>) {
    && |states| == |steps| + 1 && slack >= c.Batch() - 1
    && (exists disk, date :: Reopenable(c, slack, disk, date) && states[0] == Reopen(c, disk, date))
    && (forall i :: 0 <= i < |steps| ==> Follows(c, states[i], steps[i], states[i + 1]))
    && (forall i :: 0 <= i < |steps| && steps[i].Crashed? ==> Covers(c, slack, steps[i].at))
  }

  predicate Follows(c: Config, s: State, step: Step, t: State) {
    s.current in s.files && Possible(c, s, step) && t == Do(c, s, step)
  }

  lemma {:induction false} ExecutionKeepsInv(c: Config, slack: nat, states: seq<State>, steps: seq<Step>, i: nat)
    requires Execution(c, slack, states, steps) && i <= |steps|
    ensures Inv(c, slack, states[i])
  {
    if i == 0 {
      var disk, date :| Reopenable(c, slack, disk, date) && states[0] == Reopen(c, disk, date);
      ReopenEstablishes(c, slack, disk, date);
    } else {
      ExecutionKeepsInv(c, slack, states, steps, i - 1);
      assert Follows(c, states[i - 1], steps[i - 1], states[i]);
      DoPreserves(c, slack, states[i - 1], steps[i - 1]);
    }
  }

  // ---- what one call does ----

  /** The records a segment held before. */
  function Held(s: State, seg: Segment): seq<Record> { if seg in s.files then s.files[seg] else [] }

  /** Where an append of this date writes: the open segment while it is of that date and has room. */
  lemma RotationMeans(c: Config, slack: nat, s: State, date: int)
    requires Inv(c, slack, s) && s.isOpen && date >= s.current.date
    ensures var t := MaybeRotate(c, s, date);
      && t.current in t.files && t.current in t.synced && t.current.date == date
      && t.files[t.current] == Held(s, t.current)
      && (Size(Held(s, t.current)) < c.maxBytes || Held(s, t.current) == [])
      && (t.current == s.current <==> date == s.current.date && Size(s.files[s.current]) < c.maxBytes)
      && (forall k :: k in s.files ==> k in t.files && t.files[k] == s.files[k])
      && t.counter == s.counter && t.seqNo == s.seqNo && t.sinceSync == s.sinceSync && t.log == s.log && t.isOpen
      && (t.current != s.current ==> t.synced[t.current] == |Held(s, t.current)|)
      && (t.current == s.current ==> t.synced == s.synced)
  {
    hide Size, Concat;
    InvIsCurrent(c, slack, s);
    if date == s.current.date && Size(s.files[s.current]) >= c.maxBytes {
      NextIsNew(c, s);
    } else if date != s.current.date {
      FoundIsLast(c, s, date);
    }
  }

  lemma NextIsNew(c: Config, s: State)
    requires Tidy(c, s)
    ensures Segment(s.current.date, s.current.idx + 1) !in s.files
  {
    hide Concat, HasRoom;
    LastIsGreatestOf(s.order);
  }

  /**
   An append puts one record with the next number and its size at the end of a segment of
   its date that is new or had room, and rotates no sooner; it syncs and persists the
   counter exactly when that completes the batch.
   */
  lemma AppendMeans(c: Config, slack: nat, s: State, date: int, size: nat)
    requires Inv(c, slack, s) && s.isOpen && date >= s.current.date
    ensures var t, r := Append(c, s, date, size), Record(s.seqNo + 1, size);
      var due := c.fsyncEveryN == 0 || s.sinceSync + 1 >= c.fsyncEveryN;
      && t.isOpen && t.current in t.files && t.current in t.synced && t.current.date == date
      && t.files[t.current] == Held(s, t.current) + [r]
      && (Size(Held(s, t.current)) < c.maxBytes || Held(s, t.current) == [])
      && (t.current == s.current <==> date == s.current.date && Size(s.files[s.current]) < c.maxBytes)
      && (forall k :: k in s.files && k != t.current ==> k in t.files && t.files[k] == s.files[k])
      && t.seqNo == s.seqNo + 1 && t.log == s.log + [r]
      && (due ==> t.counter == t.seqNo && t.sinceSync == 0 && t.synced[t.current] == |t.files[t.current]|)
      && (!due ==> t.counter == s.counter && t.sinceSync == s.sinceSync + 1
                   && t.synced[t.current]
                      == if t.current == s.current then s.synced[s.current] else |Held(s, t.current)|)
  {
    hide MaybeRotate, Size, Inv;
    InvIsCurrent(c, slack, s);
    RotationMeans(c, slack, s, date);
  }

  /** A flush or close makes everything written durable and the counter exact, and writes no record. */
  lemma SyncsMean(s: State)
    requires s.current in s.files
    ensures var t := Flush(s);
      && t.files == s.files && t.log == s.log && t.seqNo == s.seqNo && t.isOpen == s.isOpen && t.current == s.current
      && (s.isOpen ==>
            t.counter == t.seqNo && t.sinceSync == 0 && t.synced == s.synced[s.current := |s.files[s.current]|])
      && (!s.isOpen ==> t == s)
    ensures var t := Close(s);
      && t.files == s.files && t.log == s.log && t.counter == t.seqNo == s.seqNo && !t.isOpen && t.current == s.current
      && t.sinceSync == s.sinceSync
      && t.synced == if s.isOpen then s.synced[s.current := |s.files[s.current]|] else s.synced
  {}

  /** No segment was written to once it had reached the limit. */
  ghost predicate Bounded(c: Config, s: State) {
    forall k :: k in s.files && |s.files[k]| >= 2 ==> Size(s.files[k][..|s.files[k]| - 1]) < c.maxBytes
  }

  lemma {:induction false} SizeGrows(records: seq<Record>, n: nat)
    requires n <= |records|
    ensures Size(records[..n]) <= Size(records)
  {
    if n == |records| {
      assert records[..n] == records;
    } else {
      var m := |records| - 1;
      assert records[..m][..n] == records[..n];
      SizeGrows(records[..m], n);
    }
  }

  lemma AppendBounded(c: Config, slack: nat, s: State, date: int, size: nat)
    requires Inv(c, slack, s) && date >= s.current.date && Bounded(c, s)
    ensures Bounded(c, Append(c, s, date, size))
  {
    hide Size, Inv, Bounded, Append;
    InvIsCurrent(c, slack, s);
    var t := Append(c, s, date, size);
    if s.isOpen {
      AppendMeans(c, slack, s, date, size);
      forall k | k in t.files && k != t.current ensures k in s.files { KeptOrNew(c, s, date, size, k); }
      WriteBounded(c, s, t, Record(s.seqNo + 1, size));
    } else {
      AppendLogs(c, s, date, size);
      SameFiles(c, s, t);
    }
  }

  lemma WriteBounded(c: Config, s: State, t: State, r: Record)
    requires Bounded(c, s) && t.current in t.files && t.files[t.current] == Held(s, t.current) + [r]
    requires Size(Held(s, t.current)) < c.maxBytes || Held(s, t.current) == []
    requires forall k :: k in t.files && k != t.current ==> k in s.files && t.files[k] == s.files[k]
    ensures Bounded(c, t)
  {
    hide Size;
    assert t.files[t.current][..|t.files[t.current]| - 1] == Held(s, t.current);
  }

  /** An append adds no segment but the one it writes to. */
  lemma KeptOrNew(c: Config, s: State, date: int, size: nat, k: Segment)
    requires s.current in s.files && k in Append(c, s, date, size).files && k != Append(c, s, date, size).current
    ensures k in s.files
  {
    hide Find, Size;
  }

  lemma CutBounded(c: Config, s: State, keep: nat)
    requires Bounded(c, s) && s.current in s.files
    requires keep <= |s.files[s.current]| && |s.files[s.current]| - keep <= |s.log|
    ensures Bounded(c, Crash(s, keep))
  {
    hide Size;
    var last := s.files[s.current];
    if 2 <= keep < |last| {
      assert last[..keep][..keep - 1] == last[..|last| - 1][..keep - 1];
      SizeGrows(last[..|last| - 1], keep - 1);
    }
    assert last[..|last|] == last;
  }

  lemma OpenBounded(c: Config, s: State, seg: Segment)
    requires Bounded(c, s)
    ensures Bounded(c, OpenSegment(s, seg))
  {
    hide Size;
  }

  /** Rotations and writes in front of a crash keep the bound as an append does. */
  lemma WhenBounded(c: Config, slack: nat, s: State, at: Moment)
    requires Inv(c, slack, s) && Reaches(c, s, at) && Bounded(c, s)
    ensures Bounded(c, When(c, s, at))
  {
    hide Size, Find, Inv;
    InvIsCurrent(c, slack, s);
    match at {
      case Rotated(date) => if s.isOpen { RotatedBounded(c, s, date); }
      case Written(date, size) => WrittenBounded(c, slack, s, date, size);
      case BatchSynced(date, size) => WrittenBounded(c, slack, s, date, size);
      case _ =>
    }
  }

  lemma RotatedBounded(c: Config, s: State, date: int)
    requires s.current in s.files && Bounded(c, s)
    ensures Bounded(c, MaybeRotate(c, s, date))
  {
    hide Size, Find, Bounded;
    SameFiles(c, s, Fsync(s));
    if s.isOpen && date != s.current.date {
      OpenBounded(c, Fsync(s), Find(s.files, c.maxBytes, date, 0));
    } else {
      OpenBounded(c, Fsync(s), Segment(s.current.date, s.current.idx + 1));
    }
  }

  lemma SameFiles(c: Config, s: State, t: State)
    requires Bounded(c, s) && t.files == s.files
    ensures Bounded(c, t)
  {}

  lemma WrittenBounded(c: Config, slack: nat, s: State, date: int, size: nat)
    requires Inv(c, slack, s) && s.isOpen && date >= s.current.date && Bounded(c, s)
    ensures MaybeRotate(c, s, date).current in MaybeRotate(c, s, date).files
    ensures Bounded(c, Write(MaybeRotate(c, s, date), size))
  {
    hide MaybeRotate, Bounded, Inv, Size;
    InvIsCurrent(c, slack, s);
    AppendLogs(c, s, date, size);
    AppendBounded(c, slack, s, date, size);
    SameFiles(c, Append(c, s, date, size), Write(MaybeRotate(c, s, date), size));
  }

  /** In every execution, crashes included, no segment is written to once it has reached the limit. */
  lemma SegmentsBounded(c: Config, slack: nat, states: seq<State>, steps: seq<Step>, i: nat)
    requires Execution(c, slack, states, steps) && i <= |steps| && Bounded(c, states[0])
    ensures Bounded(c, states[i])
  {
    hide Execution, Bounded;
    assert |states| == |steps| + 1 by { ExecutionLength(c, slack, states, steps); }
    BoundedUpTo(c, slack, states, steps, i);
  }

  lemma {:induction false} BoundedUpTo(c: Config, slack: nat, states: seq<State>, steps: seq<Step>, i: nat)
    requires Execution(c, slack, states, steps) && |states| == |steps| + 1 && i <= |steps| && Bounded(c, states[0])
    ensures Bounded(c, states[i])
  {
    hide Execution, Bounded, Inv, Follows;
    if i == 0 {
    } else {
      BoundedUpTo(c, slack, states, steps, i - 1);
      ExecutionKeepsInv(c, slack, states, steps, i - 1);
      ExecutionStep(c, slack, states, steps, i - 1);
      StepBounded(c, slack, states[i - 1], steps[i - 1], states[i]);
    }
  }

  lemma StepBounded(c: Config, slack: nat, s: State, step: Step, t: State)
    requires Inv(c, slack, s) && Follows(c, s, step, t) && Bounded(c, s)
    ensures Bounded(c, t)
  {
    hide Do, Bounded, Inv, Possible;
    DoBounded(c, slack, s, step);
  }

  lemma DoBounded(c: Config, slack: nat, s: State, step: Step)
    requires Inv(c, slack, s) && s.current in s.files && Possible(c, s, step) && Bounded(c, s)
    ensures Bounded(c, Do(c, s, step))
  {
    hide Inv, When, Bounded, Find, Append;
    match step {
      case Appended(date, size) => AppendBounded(c, slack, s, date, size);
      case Flushed => SameFiles(c, s, Flush(s));
      case Closed => SameFiles(c, s, Close(s));
      case Crashed(at, keep, date) =>
        WhenBounded(c, slack, s, at);
        var cut := Crash(When(c, s, at), keep);
        CutBounded(c, When(c, s, at), keep);
        SameFiles(c, cut, Renumbered(cut));
        OpenBounded(c, Renumbered(cut), Find(cut.files, c.maxBytes, date, 0));
    }
  }

  // ---- what a crash can cost ----

  /** Sequence numbers in the log that a writer at `seqNo` will hand out again. */
  function Reissued(log: seq<Record>, seqNo: nat): set<nat> {
    set i | 0 <= i < |log| && log[i].seqNo > seqNo :: log[i].seqNo
  }

  lemma {:induction false} IntervalSize(s: set<nat>, lo: nat, n: nat)
    requires forall x :: x in s ==> lo < x <= lo + n
    ensures |s| <= n
  {
    if n == 0 {
      assert s == {};
    } else {
      IntervalSize(s - {lo + n}, lo, n - 1);
      if lo + n in s { assert s == s - {lo + n} + {lo + n}; } else { assert s == s - {lo + n}; }
    }
  }

  /** What has been appended when the crash comes: the log and the record in flight, if any. */
  function AppendedAt(s: State, at: Moment): seq<Record> {
    if InFlight(at) then s.log + [Record(s.seqNo + 1, at.size)] else s.log
  }

  /**
   One crash, at any moment of any run, inside a call or between two: what survives is a
   prefix of what was appended, short of the returned appends by less than a batch, and
   the new writer hands out again at most `slack` of the surviving sequence numbers,
   however rotations fell between syncs.
   */
  lemma CrashCost(c: Config, slack: nat, states: seq<State>, steps: seq<Step>, i: nat)
    requires Execution(c, slack, states, steps) && i < |steps| && steps[i].Crashed?
    ensures states[i + 1].log <= AppendedAt(states[i], steps[i].at)
    ensures |states[i].log| - |states[i + 1].log| <= c.Batch() - 1
    ensures |Reissued(states[i + 1].log, states[i + 1].seqNo)| <= slack
  {
    ExecutionKeepsInv(c, slack, states, steps, i);
    ExecutionKeepsInv(c, slack, states, steps, i + 1);
    assert Follows(c, states[i], steps[i], states[i + 1]);
    assert Covers(c, slack, steps[i].at);
    hide Tidy, Find, When;
    WhenFound(c, slack, states[i], steps[i].at);
    var t := states[i + 1];
    assert t.seqNo == t.counter;
    IntervalSize(Reissued(t.log, t.seqNo), t.seqNo, slack);
  }

  /** The slack is reached: with a sync after every record, killed before the counter is written. */
  lemma NumberReissued(date: int)
    ensures var c := Config(1_000_000, 1);
      var s := Boot(c, date);
      var step := Crashed(BatchSynced(date, 10), 1, date);
      && s.current in s.files && Possible(c, s, step) && Execution(c, 1, [s, Do(c, s, step)], [step])
      && Reissued(Do(c, s, step).log, Do(c, s, step).seqNo) == {1}
  {
    var c := Config(1_000_000, 1);
    var s, step := Boot(c, date), Crashed(BatchSynced(date, 10), 1, date);
    KilledBeforeCounter(c, date);
    hide Reopen, When, Crash;
    assert Reopenable(c, 1, EmptyDisk(date), date);
    assert Follows(c, s, step, Do(c, s, step));
  }

  lemma KilledBeforeCounter(c: Config, date: int)
    requires c == Config(1_000_000, 1)
    ensures var s, step := Boot(c, date), Crashed(BatchSynced(date, 10), 1, date);
      && s.current in s.files && Possible(c, s, step)
      && Reissued(Do(c, s, step).log, Do(c, s, step).seqNo) == {1}
  {
    var s, at := Boot(c, date), BatchSynced(date, 10);
    assert HasRoom(map[], c.maxBytes, Segment(date, 0));
    assert s.current == Segment(date, 0) && s.files == map[s.current := []];
    var m := When(c, s, at);
    assert MaybeRotate(c, s, date) == s;
    assert s.log == [] && s.seqNo == 0 && m.current == s.current && m.current in m.synced;
    assert m.files[m.current] == [Record(1, 10)] && m.synced[m.current] == 1 && m.log == [Record(1, 10)];
    hide When, Find;
    var t := Reopen(c, Crash(m, 1), date);
    assert t.log == [Record(1, 10)] && t.seqNo == 0;
    assert t.log[0].seqNo == 1;
  }

  /**
   The persisted counter trails the sequence number by exactly the unsynced appends; a
   close brings it up to the number and leaves the count of unsynced appends as it was.
   */
  lemma CounterIsSeqMinusUnsynced(c: Config, slack: nat, states: seq<State>, steps: seq<Step>, i: nat)
    requires Execution(c, slack, states, steps) && i <= |steps|
    ensures states[i].isOpen ==> states[i].counter == states[i].seqNo - states[i].sinceSync
    ensures states[i].isOpen ==> states[i].sinceSync <= c.Batch() - 1
    ensures i > 0 && steps[i - 1].Closed? ==>
              && !states[i].isOpen && states[i].counter == states[i].seqNo == states[i - 1].seqNo
              && states[i].sinceSync == states[i - 1].sinceSync
  {
    ExecutionKeepsInv(c, slack, states, steps, i);
    if i > 0 { assert Follows(c, states[i - 1], steps[i - 1], states[i]); }
  }

  /** Appends that reached the file. */
  function Appends(states: seq<State>, steps: seq<Step>): nat
    requires |states| > |steps|
  {
    if steps == [] then 0
    else
      var n := |steps| - 1;
      Appends(states, steps[..n]) + (if steps[n].Appended? && states[n].isOpen then 1 else 0)
  }

  function Crashes(steps: seq<Step>): nat {
    if steps == [] then 0
    else Crashes(steps[..|steps| - 1]) + (if steps[|steps| - 1].Crashed? then 1 else 0)
  }

  /** Crashes with a record in flight, which may survive although its append never returned. */
  function FlightCrashes(steps: seq<Step>): nat {
    if steps == [] then 0
    else
      var last := steps[|steps| - 1];
      FlightCrashes(steps[..|steps| - 1]) + (if last.Crashed? && InFlight(last.at) then 1 else 0)
  }

  /** Over a whole run each crash costs less than a batch of the returned appends; nothing else is ever lost. */
  lemma TotalLoss(c: Config, slack: nat, states: seq<State>, steps: seq<Step>)
    requires Execution(c, slack, states, steps)
    ensures var n := |states[|steps|].log| - |states[0].log|;
      Appends(states, steps) - Crashes(steps) * (c.Batch() - 1) <= n <= Appends(states, steps) + FlightCrashes(steps)
  {
    hide Execution, Appends, FlightCrashes, Crashes;
    assert |states| == |steps| + 1 by { ExecutionLength(c, slack, states, steps); }
    LossWithin(c, slack, states, steps);
  }

  lemma ExecutionLength(c: Config, slack: nat, states: seq<State>, steps: seq<Step>)
    requires Execution(c, slack, states, steps)
    ensures |states| == |steps| + 1
  {}

  /** The price of all crashes at `b` each. */
  function Cost(steps: seq<Step>, b: int): int { Crashes(steps) * b }

  lemma CostSnoc(steps: seq<Step>, b: int)
    requires steps != []
    ensures Cost(steps, b) == Cost(steps[..|steps| - 1], b) + (if steps[|steps| - 1].Crashed? then b else 0)
  {
    var k := Crashes(steps[..|steps| - 1]);
    assert (k + 1) * b == k * b + b;
  }

  lemma {:induction false} LossWithin(c: Config, slack: nat, states: seq<State>, steps: seq<Step>)
    requires Execution(c, slack, states, steps) && |states| == |steps| + 1
    ensures var n := |states[|steps|].log| - |states[0].log|;
      Appends(states, steps) - Cost(steps, c.Batch() - 1) <= n <= Appends(states, steps) + FlightCrashes(steps)
  {
    if steps == [] {
    } else {
      hide Execution, Config.Batch, InFlight, Cost;
      var n := |steps| - 1;
      var before := states[..n + 1];
      ShorterExecution(c, slack, states, steps);
      LossWithin(c, slack, before, steps[..n]);
      AppendsPrefix(states, before, steps[..n]);
      LossStep(c, slack, states, steps, n);
      CostSnoc(steps, c.Batch() - 1);
    }
  }

  lemma LossStep(c: Config, slack: nat, states: seq<State>, steps: seq<Step>, i: nat)
    requires Execution(c, slack, states, steps) && i < |steps|
    ensures var gained := |states[i + 1].log| - |states[i].log|;
      if steps[i].Crashed? then -(c.Batch() - 1) <= gained <= (if InFlight(steps[i].at) then 1 else 0)
      else gained == if steps[i].Appended? && states[i].isOpen then 1 else 0
  {
    hide Do, Find, Possible, Reissued;
    ExecutionStep(c, slack, states, steps, i);
    if steps[i].Crashed? {
      CrashCost(c, slack, states, steps, i);
    } else {
      LogStep(c, states[i], steps[i]);
    }
  }

  // ---- sequence numbers handed out twice ----

  function Numbers(log: seq<Record>): set<nat> { set i | 0 <= i < |log| :: log[i].seqNo }

  lemma NumbersSnoc(log: seq<Record>, r: Record)
    ensures Numbers(log + [r]) == Numbers(log) + {r.seqNo}
  {
    var all := log + [r];
    assert all[|log|] == r && forall i :: 0 <= i < |log| ==> all[i] == log[i];
  }

  /** Losing records from the end never adds a repetition. */
  lemma {:induction false} PrefixRepeatsLess(log: seq<Record>, n: nat)
    requires n <= |log|
    ensures n - |Numbers(log[..n])| <= |log| - |Numbers(log)|
    decreases |log|
  {
    if n == |log| {
      assert log[..n] == log;
    } else {
      var m := |log| - 1;
      assert log == log[..m] + [log[m]] && log[..m][..n] == log[..n];
      PrefixRepeatsLess(log[..m], n);
      NumbersSnoc(log[..m], log[m]);
    }
  }

  /** An append turns an outstanding repetition into an actual one, or adds neither. */
  lemma AppendRepeats(log: seq<Record>, seqNo: nat, r: Record)
    requires r.seqNo == seqNo + 1
    ensures |log + [r]| - |Numbers(log + [r])| + |Reissued(log + [r], seqNo + 1)|
         == |log| - |Numbers(log)| + |Reissued(log, seqNo)|
  {
    NumbersSnoc(log, r);
    var all := log + [r];
    assert all[|log|] == r && forall i :: 0 <= i < |log| ==> all[i] == log[i];
    var before, after := Reissued(log, seqNo), Reissued(all, seqNo + 1);
    assert after == before - {seqNo + 1};
    assert seqNo + 1 in before <==> seqNo + 1 in Numbers(log);
    if seqNo + 1 in before {
      assert before == after + {seqNo + 1};
      assert Numbers(all) == Numbers(log);
    } else {
      assert before == after;
    }
  }

  lemma FewerReissued(log: seq<Record>, seqNo: nat)
    ensures |Reissued(log, seqNo + 1)| <= |Reissued(log, seqNo)|
  {
    assert Reissued(log, seqNo) == Reissued(log, seqNo + 1) + (Reissued(log, seqNo) * {seqNo + 1});
  }

  /** Repetitions in the log, and those still to come. */
  function Repeats(s: State): int { |s.log| - |Numbers(s.log)| + |Reissued(s.log, s.seqNo)| }

  lemma StepRepeats(c: Config, s: State, step: Step)
    requires s.current in s.files && Possible(c, s, step) && !step.Crashed?
    ensures Repeats(Do(c, s, step)) <= Repeats(s)
  {
    hide Find, Numbers, Reissued, MaybeRotate, Write, SyncAll;
    match step {
      case Appended(date, size) =>
        AppendLogs(c, s, date, size);
        if s.isOpen {
          AppendRepeats(s.log, s.seqNo, Record(s.seqNo + 1, size));
        } else {
          FewerReissued(s.log, s.seqNo);
        }
      case Flushed => SyncKeepsLog(s);
      case Closed =>
    }
  }

  lemma SyncKeepsLog(s: State)
    requires s.current in s.files
    ensures SyncAll(s).log == s.log && SyncAll(s).seqNo == s.seqNo
  {}

  /** A crash turns the record in flight into a repetition at worst, and leaves at most `slack` to come. */
  lemma CrashRepeats(c: Config, slack: nat, states: seq<State>, steps: seq<Step>, i: nat)
    requires Execution(c, slack, states, steps) && i < |steps| && steps[i].Crashed?
    ensures Repeats(states[i + 1]) <= Repeats(states[i]) + slack
  {
    hide Reissued, Numbers, Follows, Reopenable;
    CrashCost(c, slack, states, steps, i);
    var s, t, at := states[i], states[i + 1], steps[i].at;
    var appended := AppendedAt(s, at);
    assert t.log == appended[..|t.log|];
    PrefixRepeatsLess(appended, |t.log|);
    if InFlight(at) { AppendRepeats(s.log, s.seqNo, Record(s.seqNo + 1, at.size)); }
  }

  /**
   Over a whole run the log gains at most `slack` repeated sequence numbers for each crash,
   counting those that the present writer is still going to repeat.
   */
  lemma TotalReissued(c: Config, slack: nat, states: seq<State>, steps: seq<Step>)
    requires Execution(c, slack, states, steps)
    ensures Repeats(states[|steps|]) <= Repeats(states[0]) + Crashes(steps) * slack
  {
    hide Execution, Repeats, Crashes;
    assert |states| == |steps| + 1 by { ExecutionLength(c, slack, states, steps); }
    RepeatsWithin(c, slack, states, steps);
  }

  lemma {:induction false} RepeatsWithin(c: Config, slack: nat, states: seq<State>, steps: seq<Step>)
    requires Execution(c, slack, states, steps) && |states| == |steps| + 1
    ensures Repeats(states[|steps|]) <= Repeats(states[0]) + Cost(steps, slack)
  {
    if steps == [] {
    } else {
      hide Execution, Repeats, Cost;
      var n := |steps| - 1;
      ShorterExecution(c, slack, states, steps);
      RepeatsWithin(c, slack, states[..n + 1], steps[..n]);
      RepeatsStep(c, slack, states, steps, n);
      CostSnoc(steps, slack);
    }
  }

  lemma RepeatsStep(c: Config, slack: nat, states: seq<State>, steps: seq<Step>, i: nat)
    requires Execution(c, slack, states, steps) && i < |steps|
    ensures Repeats(states[i + 1]) <= Repeats(states[i]) + (if steps[i].Crashed? then slack else 0)
  {
    hide Do, Find, Possible, Repeats;
    ExecutionStep(c, slack, states, steps, i);
    if steps[i].Crashed? {
      CrashRepeats(c, slack, states, steps, i);
    } else {
      StepRepeats(c, states[i], steps[i]);
    }
  }

  /** On a log without repetitions to begin with, that bounds the repetitions in the log. */
  lemma FreshReissued(c: Config, slack: nat, states: seq<State>, steps: seq<Step>)
    requires Execution(c, slack, states, steps) && states[0].log == []
    ensures |states[|steps|].log| - |Numbers(states[|steps|].log)| <= Crashes(steps) * slack
  {
    TotalReissued(c, slack, states, steps);
    assert Numbers([]) == {} && Reissued([], states[0].seqNo) == {};
  }

  lemma ExecutionStep(c: Config, slack: nat, states: seq<State>, steps: seq<Step>, i: nat)
    requires Execution(c, slack, states, steps) && i < |steps|
    ensures Follows(c, states[i], steps[i], states[i + 1])
  {}

  lemma ShorterExecution(c: Config, slack: nat, states: seq<State>, steps: seq<Step>)
    requires Execution(c, slack, states, steps) && steps != []
    ensures |states| == |steps| + 1 && Execution(c, slack, states[..|steps|], steps[..|steps| - 1])
  {
    var n := |steps| - 1;
    forall i | 0 <= i < n ensures Follows(c, states[..n + 1][i], steps[..n][i], states[..n + 1][i + 1]) {
      assert Follows(c, states[i], steps[i], states[i + 1]);
    }
  }

  lemma {:induction false} AppendsPrefix(states: seq<State>, before: seq<State>, steps: seq<Step>)
    requires |states| > |steps| && |before| > |steps| && before <= states
    ensures Appends(states, steps) == Appends(before, steps)
  {
    if steps == [] {
    } else {
      AppendsPrefix(states, before, steps[..|steps| - 1]);
    }
  }

  lemma LogStep(c: Config, s: State, step: Step)
    requires s.current in s.files && Possible(c, s, step) && !step.Crashed?
    ensures |Do(c, s, step).log| == |s.log| + (if step.Appended? && s.isOpen then 1 else 0)
    ensures s.log <= Do(c, s, step).log
  {
    hide Find, Concat;
  }

  lemma AppendLogs(c: Config, s: State, date: int, size: nat)
    requires s.current in s.files
    ensures var t := MaybeRotate(c, s, date);
      t.current in t.files && t.isOpen == s.isOpen && t.seqNo == s.seqNo && t.log == s.log
    ensures var t := Write(MaybeRotate(c, s, date), size); s.isOpen ==>
      && t.current in t.files
      && Append(c, s, date, size) == (if c.fsyncEveryN == 0 || t.sinceSync >= c.fsyncEveryN then SyncAll(t) else t)
      && t.seqNo == s.seqNo + 1 && t.log == s.log + [Record(s.seqNo + 1, size)]
      && SyncAll(t).log == t.log && SyncAll(t).seqNo == t.seqNo
    ensures !s.isOpen ==> Append(c, s, date, size) == s.(seqNo := s.seqNo + 1)
    ensures Append(c, s, date, size).current in Append(c, s, date, size).files
  {
    hide Tidy, Find;
  }

  // ---- the reader ----

  lemma HasElement(a: seq<Segment>)
    requires a != []
    ensures exists k :: k in a
  {
    assert a[0] in a;
  }

  /** A sorted listing is determined by the directory. */
  lemma {:induction false} ListingUnique(a: seq<Segment>, b: seq<Segment>)
    requires Increasing(a) && Increasing(b) && forall k :: k in a <==> k in b
    ensures a == b
  {
    if a == [] {
      if b != [] { HasElement(b); }
    } else {
      assert a[0] in b && b != [];
      var n, m := |a| - 1, |b| - 1;
      LastIsGreatest(a, b[m]);
      LastIsGreatest(b, a[n]);
      forall k ensures k in a[..n] <==> k in b[..m] {
        if k in a[..n] { LastIsGreatest(a, k); assert k in b; }
        if k in b[..m] { LastIsGreatest(b, k); assert k in a; }
      }
      ListingUnique(a[..n], b[..m]);
      assert a == a[..n] + [a[n]] && b == b[..m] + [b[m]];
    }
  }

  /** Reading the segments in sorted order returns the surviving records in append order. */
  lemma ReaderSeesAppendOrder(
    c: Config, slack: nat, states: seq<State>, steps: seq<Step>, i: nat, listing: seq<Segment>)
    requires Execution(c, slack, states, steps) && i <= |steps| && Lists(listing, states[i].files)
    ensures Concat(states[i].files, listing) == states[i].log
  {
    ExecutionKeepsInv(c, slack, states, steps, i);
    ListingUnique(listing, states[i].order);
  }

  // ---- the writer and reader objects ----

  function Insert(segs: seq<Segment>, seg: Segment): seq<Segment> {
    if segs == [] then [seg]
    else if Before(seg, segs[0]) then [seg] + segs
    else [segs[0]] + Insert(segs[1..], seg)
  }

  lemma {:induction false} InsertSorted(segs: seq<Segment>, seg: Segment)
    requires Increasing(segs) && seg !in segs
    ensures Increasing(Insert(segs, seg)) && forall k :: k in Insert(segs, seg) <==> k == seg || k in segs
  {
    if segs == [] || Before(seg, segs[0]) {
    } else {
      InsertSorted(segs[1..], seg);
      var rest := Insert(segs[1..], seg);
      forall k | k in rest ensures Before(segs[0], k) {}
    }
  }

  class WALReader {
    /** The directory listing, sorted by (date, index). */
    method ListSegments(files: Files, glob: seq<Segment>) returns (segs: seq<Segment>)
      requires forall i, j :: 0 <= i < j < |glob| ==> glob[i] != glob[j]
      requires forall k :: k in glob <==> k in files
      ensures Lists(segs, files)
    {
      segs := [];
      for i := 0 to |glob|
        invariant Increasing(segs) && forall k :: k in segs <==> k in glob[..i]
      {
        InsertSorted(segs, glob[i]);
        segs := Insert(segs, glob[i]);
      }
    }

    method IterRecords(files: Files, segs: seq<Segment>) returns (records: seq<Record>)
      requires Lists(segs, files)
      ensures records == Concat(files, segs)
    {
      records := [];
      for i := 0 to |segs|
        invariant records == Concat(files, segs[..i])
      {
        assert segs[..i + 1][..i] == segs[..i];
        records := records + files[segs[i]];
      }
      assert segs[..|segs|] == segs;
    }
  }

  class WALWriter {
    const config: Config
    var files: Files
    var counter: nat
    var seqNo: nat
    var sinceSync: nat
    var current: Segment
    var isOpen: bool
    ghost var synced: map<Segment, nat>
    ghost var order: seq<Segment>
    ghost var log: seq<Record>

    ghost function Abstract(): State
      reads this
    {
      State(files, synced, counter, seqNo, sinceSync, current, isOpen, order, log)
    }

    ghost predicate Valid()
      reads this
    {
      Inv(config, config.Batch(), Abstract())
    }

    /** A writer on what the directory and the counter file hold. */
    constructor (config: Config, files: Files, counter: nat, date: int, ghost disk: State)
      requires disk.files == files && disk.counter == counter && !disk.isOpen
      ensures this.config == config
      ensures Abstract() == Reopen(config, disk, date)
      ensures Reopenable(config, config.Batch(), disk, date) ==> Valid()
    {
      ReopenEstablishes(config, config.Batch(), disk, date);
      this.config, this.files, this.counter := config, files, counter;
      seqNo, sinceSync, isOpen := counter, 0, false;
      current, synced, order, log := Segment(date, 0), disk.synced, disk.order, disk.log;
      new;
      OpenCurrentFile(date);
    }

    method OpenPath(seg: Segment)
      modifies this
      ensures Abstract() == OpenSegment(old(Abstract()), seg)
    {
      if seg !in files {
        files := files[seg := []];
        synced := synced[seg := 0];
        order := order + [seg];
      }
      current, isOpen := seg, true;
    }

    /** Search the date's segments for the first one with room. */
    method OpenCurrentFile(date: int)
      modifies this
      ensures Abstract() == OpenSegment(old(Abstract()), Find(old(files), config.maxBytes, date, 0))
    {
      var idx := 0;
      while Segment(date, idx) in files && Size(files[Segment(date, idx)]) >= config.maxBytes
        invariant unchanged(this)
        invariant idx >= 0 && forall j :: 0 <= j < idx ==> !HasRoom(files, config.maxBytes, Segment(date, j))
        decreases |Remaining(files, date, idx)|
      {
        RemainingShrinks(files, date, idx);
        idx := idx + 1;
      }
      FirstRoomUnique(files, config.maxBytes, Segment(date, idx), Find(files, config.maxBytes, date, 0));
      OpenPath(Segment(date, idx));
    }

    ghost method SyncFile()
      requires current in files
      modifies this`synced
      ensures Abstract() == Fsync(old(Abstract()))
    {
      synced := synced[current := |files[current]|];
    }

    /** fsync, persist the counter, start a new batch. */
    method SyncAndCount()
      requires current in files
      modifies this
      ensures Abstract() == SyncAll(old(Abstract()))
    {
      SyncFile();
      counter := seqNo;
      sinceSync := 0;
    }

    method WriteLine(size: nat)
      requires current in files
      modifies this
      ensures Abstract() == Write(old(Abstract()), size)
    {
      seqNo := seqNo + 1;
      files := files[current := files[current] + [Record(seqNo, size)]];
      sinceSync := sinceSync + 1;
      log := log + [Record(seqNo, size)];
    }

    method MaybeRotateFile(date: int)
      requires current in files
      modifies this
      ensures Abstract() == MaybeRotate(config, old(Abstract()), date)
    {
      if !isOpen { return; }
      if date != current.date {
        SyncFile();
        OpenCurrentFile(date);
      } else if Size(files[current]) >= config.maxBytes {
        SyncFile();
        OpenPath(Segment(current.date, current.idx + 1));
      }
    }

    /** None is the failed assertion of an append after close. */
    method AppendRecord(date: int, size: nat) returns (number: Option<nat>)
      requires current in files
      modifies this
      ensures current in files && Abstract() == Append(config, old(Abstract()), date, size)
      ensures old(Valid()) && date >= old(current.date) ==> Valid()
      ensures old(isOpen) ==> number == Some(old(seqNo) + 1) && log == old(log) + [Record(old(seqNo) + 1, size)]
      ensures !old(isOpen) ==> number == None && log == old(log)
    {
      hide Inv, Find, MaybeRotate, Write, SyncAll, Append;
      ghost var s := Abstract();
      if Valid() && date >= current.date { AppendPreserves(config, config.Batch(), s, date, size); }
      AppendLogs(config, s, date, size);
      if !isOpen {
        seqNo := seqNo + 1;
        return None;
      }
      MaybeRotateFile(date);
      WriteLine(size);
      ghost var t := Abstract();
      assert t == Write(MaybeRotate(config, s, date), size);
      if config.fsyncEveryN == 0 || sinceSync >= config.fsyncEveryN { SyncAndCount(); }
      assert Abstract() == Append(config, s, date, size);
      return Some(seqNo);
    }

    method FlushAll()
      requires Valid()
      modifies this
      ensures Valid() && Abstract() == Flush(old(Abstract()))
    {
      DoPreserves(config, config.Batch(), Abstract(), Flushed);
      InvIsCurrent(config, config.Batch(), Abstract());
      hide Inv;
      if isOpen { SyncAndCount(); }
    }

    method CloseAll()
      requires Valid()
      modifies this
      ensures Valid() && Abstract() == Close(old(Abstract()))
    {
      DoPreserves(config, config.Batch(), Abstract(), Closed);
      InvIsCurrent(config, config.Batch(), Abstract());
      hide Inv;
      counter := seqNo;
      if isOpen {
        SyncFile();
        isOpen := false;
      }
    }
  }

  lemma FirstRoomUnique(files: Files, maxBytes: int, a: Segment, b: Segment)
    requires FirstRoom(files, maxBytes, a) && FirstRoom(files, maxBytes, b) && a.date == b.date
    ensures a == b
  {
    assert a == Segment(a.date, a.idx) && b == Segment(b.date, b.idx);
  }
}
