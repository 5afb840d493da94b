/** The daemon that sweeps a partition of scheduled runs, page by page. */
module Daemon {
  import opened Wrappers
  import opened Errors
  import opened RunTimes
  import opened Protocol
  import opened Safety
  import opened Traces
  import opened Stores

  /** A row of the scheduled runs table within one partition. */
  datatype Run = Run(key: Key, nextRun: int)

  const ITEMS_PER_PAGE := 100

  /** Where a query starts: nowhere in particular, or where the last page ended. */
  datatype Cursor = Empty | Position(index: nat)

  /** The rows of a partition come in the order of the key, which is unique. */
  predicate InOrder(rows: seq<Run>) {
    forall i, j | 0 <= i < j < |rows| :: rows[i].nextRun < rows[j].nextRun
  }

  /** The rows of one partition of the table, all of them, in the order of the key. */
  ghost predicate IsPartition(rows: seq<Run>, runs: map<RunKey, Key>, partition: int) {
    InOrder(rows) &&
    (forall r | r in rows :: RunKey(partition, r.nextRun) in runs && runs[RunKey(partition, r.nextRun)] == r.key) &&
    (forall rk | rk in runs && rk.partition == partition :: Run(runs[rk], rk.nextRun) in rows)
  }

  function TimesOf(rows: seq<Run>): seq<int> {
    seq(|rows|, i requires 0 <= i < |rows| => rows[i].nextRun)
  }

  /** The table and the partition determine the rows. */
  lemma PartitionIsUnique(rows: seq<Run>, others: seq<Run>, runs: map<RunKey, Key>, partition: int)
    requires IsPartition(rows, runs, partition) && IsPartition(others, runs, partition)
    ensures rows == others
  {
    SameTimes(rows, others, runs, partition);
    SameTimes(others, rows, runs, partition);
    SortedIsUnique(TimesOf(rows), TimesOf(others));
    forall i | 0 <= i < |rows| ensures |rows| == |others| && rows[i] == others[i] {
      assert TimesOf(rows)[i] == TimesOf(others)[i];
      assert rows[i] in rows && others[i] in others;
    }
  }

  lemma SameTimes(rows: seq<Run>, others: seq<Run>, runs: map<RunKey, Key>, partition: int)
    requires IsPartition(rows, runs, partition) && IsPartition(others, runs, partition)
    ensures |TimesOf(rows)| == |rows| && StrictlyIncreasing(TimesOf(rows))
    ensures Elements(TimesOf(rows)) <= Elements(TimesOf(others))
  {
    forall t | t in TimesOf(rows) ensures t in TimesOf(others) {
      var i :| 0 <= i < |rows| && TimesOf(rows)[i] == t;
      assert rows[i] in rows;
      var j :| 0 <= j < |others| && others[j] == Run(runs[RunKey(partition, t)], t);
      assert TimesOf(others)[j] == t;
    }
  }

  /** The rows as the database keeps them, sorted by the clustering column. */
  method RowsOf(runs: map<RunKey, Key>, partition: int) returns (rows: seq<Run>)
    ensures IsPartition(rows, runs, partition)
  {
    var keys := set rk | rk in runs && rk.partition == partition;
    var rest, times := keys, [];
    while rest != {}
      invariant rest <= keys && StrictlyIncreasing(times)
      invariant forall t | t in Elements(times) :: RunKey(partition, t) in keys
      invariant forall rk | rk in keys && rk !in rest :: rk.nextRun in Elements(times)
      decreases rest
    {
      var rk :| rk in rest;
      InsertIntoSorted(times, rk.nextRun);
      times := Insert(times, rk.nextRun);
      rest := rest - {rk};
    }
    assert forall i | 0 <= i < |times| :: times[i] in Elements(times);
    rows := seq(|times|, i requires 0 <= i < |times| => Run(runs[RunKey(partition, times[i])], times[i]));
    forall rk | rk in runs && rk.partition == partition ensures Run(runs[rk], rk.nextRun) in rows {
      assert rk in keys;
      var i :| 0 <= i < |times| && times[i] == rk.nextRun;
      assert rows[i] == Run(runs[rk], rk.nextRun);
    }
  }

  function Offset(c: Cursor): nat {
    if c.Empty? then 0 else c.index
  }

  /** `GetScheduledRuns`: one page of at most a hundred rows, and where the next one starts.
      After a full page the database may give a position although no row is left. A failed
      query gives no position. */
  method GetScheduledRuns(rows: seq<Run>, start: Cursor, mayFail: bool)
    returns (page: Option<seq<Run>>, next: Cursor)
    requires Offset(start) <= |rows|
    ensures page.None? ==> mayFail
    ensures page.None? ==> next.Empty?
    ensures page.Some? ==>
              var end := Offset(start) + |page.value|;
              end <= |rows| && page.value == rows[Offset(start)..end] && |page.value| <= ITEMS_PER_PAGE &&
              (if next.Empty? then end == |rows| else next.index == end && |page.value| > 0)
  {
    var fault: bool := *;
    if fault && mayFail {
      return None, Empty;
    }
    var from := Offset(start);
    var end := if from + ITEMS_PER_PAGE < |rows| then from + ITEMS_PER_PAGE else |rows|;
    var sure: bool := *;
    page := Some(rows[from..end]);
    next := if end == |rows| && (sure || end - from < ITEMS_PER_PAGE) then Empty else Position(end);
  }

  // --- What became of each run --------------------------------------------------------

  /** A row whose task was not found, or could not be read, encoded or sent without an
      error, or was sent. A message may be sent although the call reported an error. */
  datatype RowOutcome = NotFound | ReadFailed | NotEncoded | SendFailed(mid: nat, sent: bool) | SentAs(mid: nat)

  predicate WasSent(o: RowOutcome) {
    o.SentAs? || (o.SendFailed? && o.sent)
  }

  function AfterRow(t: Trace, a: nat, k: Key, o: RowOutcome): Trace {
    match o
    case NotFound => Noting(t, a, SawTask(k, None))
    case ReadFailed => Noting(t, a, CallFailed(ReadCall))
    case _ => AfterReading(Then(t, ReadRun(a, k)), a, o)
  }

  predicate IsSending(o: RowOutcome) {
    o.NotEncoded? || o.SendFailed? || o.SentAs?
  }

  function AfterReading(read: Trace, a: nat, o: RowOutcome): Trace
    requires IsSending(o)
  {
    match o
    case NotEncoded => Then(Noting(read, a, CallFailed(EncodeCall)), Abandon(a))
    case SendFailed(mid, sent) => AfterLastCall(read, a, Enqueue(a, mid), EnqueueCall, false, sent)
    case SentAs(mid) => Then(read, Enqueue(a, mid))
  }

  /** `t`, and then visiting the first of these rows, one after the other. */
  function AfterRows(t: Trace, a: nat, rows: seq<Run>, os: seq<RowOutcome>): Trace
    requires |os| <= |rows|
  {
    if os == [] then t
    else
      var n := |os| - 1;
      AfterRow(AfterRows(t, a, rows, os[..n]), a, rows[n].key, os[n])
  }

  /** The runs whose task was sent, in the order of sending. */
  function SentRuns(rows: seq<Run>, os: seq<RowOutcome>): seq<Run>
    requires |os| <= |rows|
  {
    if os == [] then []
    else
      var n := |os| - 1;
      SentRuns(rows, os[..n]) + (if WasSent(os[n]) then [rows[n]] else [])
  }

  /** A row whose task is not found is that of a removed task; and every other one is sent,
      unless a call fails that may fail. */
  predicate VisitedWell(rows: seq<Run>, os: seq<RowOutcome>, removed: set<Key>, failing: set<Operation>) {
    |os| <= |rows| &&
    forall i | 0 <= i < |os| ::
      (os[i].NotFound? ==> rows[i].key in removed) && FailsWell(os[i], failing)
  }

  predicate FailsWell(o: RowOutcome, failing: set<Operation>) {
    match o
    case ReadFailed => ReadCall in failing
    case NotEncoded => EncodeCall in failing
    case SendFailed(_, _) => EnqueueCall in failing
    case _ => true
  }

  /** When no call fails, every run of a task that has not been removed is sent, exactly once
      and in order. */
  lemma {:induction false} AllSentMeansAll(rows: seq<Run>, os: seq<RowOutcome>, removed: set<Key>)
    requires VisitedWell(rows, os, removed, {})
    requires forall r | r in rows[..|os|] :: r.key !in removed
    ensures SentRuns(rows, os) == rows[..|os|]
  {
    if os != [] {
      var n := |os| - 1;
      assert rows[..|os|] == rows[..n] + [rows[n]];
      assert rows[n] in rows[..|os|];
      AllSentMeansAll(rows, os[..n], removed);
    }
  }

  /** With faults some are missing, but none is sent twice or out of order. */
  lemma {:induction false} SentInOrder(rows: seq<Run>, os: seq<RowOutcome>)
    requires |os| <= |rows| && InOrder(rows)
    ensures InOrder(SentRuns(rows, os))
    ensures forall r | r in SentRuns(rows, os) :: r in rows[..|os|]
  {
    if os != [] {
      var n := |os| - 1;
      SentInOrder(rows, os[..n]);
      assert rows[..|os|] == rows[..n] + [rows[n]];
      var before := SentRuns(rows, os[..n]);
      forall i | 0 <= i < |before| ensures before[i].nextRun < rows[n].nextRun {
        assert before[i] in rows[..n];
      }
    }
  }

  lemma OneMoreRow(t: Trace, a: nat, rows: seq<Run>, os: seq<RowOutcome>, o: RowOutcome)
    requires |os| < |rows|
    ensures AfterRows(t, a, rows, os + [o]) == AfterRow(AfterRows(t, a, rows, os), a, rows[|os|].key, o)
  {
    assert (os + [o])[..|os|] == os;
  }

  lemma WellOneMore(rows: seq<Run>, os: seq<RowOutcome>, removed: set<Key>, failing: set<Operation>, o: RowOutcome,
                    later: set<Key>)
    requires VisitedWell(rows, os, removed, failing) && removed <= later && |os| < |rows|
    requires (o.NotFound? ==> rows[|os|].key in later) && FailsWell(o, failing)
    ensures VisitedWell(rows, os + [o], later, failing)
  {
  }

  // --- One sweep ----------------------------------------------------------------------

  /** One row: look the task up, encode it, send it. */
  method VisitRow(store: Store, a: nat, k: Key) returns (o: RowOutcome)
    requires store.Valid() && store.Stage(a) == None && k in store.model.scheduled
    modifies store
    ensures store.Valid() && store.Stage(a) == None && Grows(old(store.model), store.model)
    ensures store.Steps(a) == AfterRow(old(store.Steps(a)), a, k, o)
    ensures o.NotFound? ==> k in store.model.removed
    ensures FailsWell(o, store.failing)
    ensures WasSent(o) ==> o.mid in store.accepted && k in store.model.created &&
                           (k in store.model.removed || CarriesTask(store.accepted[o.mid], k, store.model.created[k]))
  {
    store.Interfere(a);
    var task, missing := store.GetTaskForRun(a, k);
    if task.None? {
      return if missing then NotFound else ReadFailed;
    }
    store.RowIsCreated(k);
    o := SendTask(store, a, k, task.value.meta);
  }

  /** The row was found: encode the task and send it. */
  method SendTask(store: Store, a: nat, k: Key, m: Meta) returns (o: RowOutcome)
    requires store.Valid() && store.Stage(a) == Some(RunFound(k, m))
    modifies store
    ensures store.Valid() && store.Stage(a) == None && Grows(old(store.model), store.model)
    ensures IsSending(o) && store.Steps(a) == AfterReading(old(store.Steps(a)), a, o)
    ensures FailsWell(o, store.failing)
    ensures WasSent(o) ==> o.mid in store.accepted && CarriesTask(store.accepted[o.mid], k, m)
  {
    store.Interfere(a);
    var encoded := store.Encode(a);
    if !encoded {
      store.Stop(a);
      return NotEncoded;
    }
    var ok, sent, mid := store.SendDispatchMessage(a, k, m);
    return if ok then SentAs(mid) else SendFailed(mid, sent);
  }

  predicate KeysIn(rows: seq<Run>, keys: set<Key>) {
    forall r | r in rows :: r.key in keys
  }

  /** The next row, when `os` says what became of the rows before it. */
  method VisitNext(store: Store, a: nat, k: Key, ghost rows: seq<Run>, ghost start: Trace, ghost os: seq<RowOutcome>)
    returns (ghost next: seq<RowOutcome>)
    requires store.Valid() && store.Stage(a) == None && k in store.model.scheduled
    requires |os| < |rows| && rows[|os|].key == k
    requires store.Steps(a) == AfterRows(start, a, rows, os)
    requires VisitedWell(rows, os, store.model.removed, store.failing)
    modifies store
    ensures store.Valid() && store.Stage(a) == None && Grows(old(store.model), store.model)
    ensures |next| == |os| + 1 && store.Steps(a) == AfterRows(start, a, rows, next)
    ensures VisitedWell(rows, next, store.model.removed, store.failing)
  {
    ghost var removed := store.model.removed;
    var o := VisitRow(store, a, k);
    OneMoreRow(start, a, rows, os, o);
    WellOneMore(rows, os, removed, store.failing, o, store.model.removed);
    next := os + [o];
  }

  /** The rows of a page, when `before` says what became of the rows before it. `start` is
      the trace the sweep started from. */
  method VisitPage(store: Store, a: nat, page: seq<Run>, told: bool, ghost rows: seq<Run>,
                   ghost start: Trace, ghost before: seq<RowOutcome>)
    returns (stopped: bool, ghost os: seq<RowOutcome>)
    requires store.Valid() && store.Stage(a) == None && KeysIn(rows, store.model.scheduled)
    requires |before| + |page| <= |rows| && page == rows[|before|..|before| + |page|]
    requires store.Steps(a) == AfterRows(start, a, rows, before)
    requires VisitedWell(rows, before, store.model.removed, store.failing)
    modifies store
    ensures store.Valid() && store.Stage(a) == None && Grows(old(store.model), store.model)
    ensures |os| <= |rows| && store.Steps(a) == AfterRows(start, a, rows, os)
    ensures VisitedWell(rows, os, store.model.removed, store.failing)
    ensures if stopped then told else |os| == |before| + |page|
  {
    stopped, os := false, before;
    var i := 0;
    while i < |page|
      invariant 0 <= i <= |page| && |os| == |before| + i
      invariant store.Valid() && store.Stage(a) == None && Grows(old(store.model), store.model)
      invariant store.Steps(a) == AfterRows(start, a, rows, os)
      invariant VisitedWell(rows, os, store.model.removed, store.failing)
    {
      var shutdown: bool := *;
      if told && shutdown {
        return true, os;
      }
      assert page[i] == rows[|before| + i] && rows[|before| + i] in rows;
      os := VisitNext(store, a, page[i].key, rows, start, os);
      i := i + 1;
    }
  }

  /** What became of one sweep: what the partition held when it began, as a table and in
      order, the rows visited, and whether a query for a page failed. */
  datatype SweepLog = SweepLog(day: int, table: map<RunKey, Key>, rows: seq<Run>, os: seq<RowOutcome>, failed: bool)

  function AfterSweep(t: Trace, a: nat, log: SweepLog): Trace
    requires |log.os| <= |log.rows|
  {
    var visited := AfterRows(Noting(t, a, SawRuns(log.day, log.table)), a, log.rows, log.os);
    if log.failed then Noting(visited, a, CallFailed(PageCall)) else visited
  }

  /** The rows are those of the partition, and the first of them were visited well. */
  ghost predicate SweptWell(log: SweepLog, removed: set<Key>, failing: set<Operation>) {
    IsPartition(log.rows, log.table, log.day) && VisitedWell(log.rows, log.os, removed, failing) &&
    (log.failed ==> PageCall in failing)
  }

  /** Unless a query for a page failed, every row was visited. */
  predicate Complete(log: SweepLog) {
    log.failed || |log.os| == |log.rows|
  }

  /** One sweep over a partition: pages until there is no next one or a query fails. */
  method Sweep(store: Store, a: nat, partition: int, start: Cursor, told: bool)
    returns (next: Cursor, stopped: bool, ghost log: SweepLog)
    requires store.Valid() && store.Stage(a) == None
    requires start.Empty?
    modifies store
    ensures store.Valid() && store.Stage(a) == None && Grows(old(store.model), store.model)
    ensures log.day == partition && log.table == RunsIn(old(store.runs), partition)
    ensures SweptWell(log, store.model.removed, store.failing)
    ensures store.Steps(a) == AfterSweep(old(store.Steps(a)), a, log)
    ensures if stopped then told else next.Empty? && Complete(log)
  {
    ghost var table := RunsIn(store.runs, partition);
    var rows := RowsOf(store.runs, partition);
    PartitionOfTable(rows, store.runs, partition);
    store.RunsAreScheduled();
    store.SeeRuns(a, partition);
    var failed;
    ghost var os;
    next, stopped, failed, os := SweepRows(store, a, rows, start, told);
    if failed {
      store.PageFailed(a);
    }
    log := SweepLog(partition, table, rows, os, failed);
  }

  lemma PartitionOfTable(rows: seq<Run>, runs: map<RunKey, Key>, partition: int)
    ensures IsPartition(rows, RunsIn(runs, partition), partition) <==> IsPartition(rows, runs, partition)
  {
  }

  /** The loop over the pages. */
  method SweepRows(store: Store, a: nat, rows: seq<Run>, start: Cursor, told: bool)
    returns (next: Cursor, stopped: bool, failed: bool, ghost os: seq<RowOutcome>)
    requires store.Valid() && store.Stage(a) == None && KeysIn(rows, store.model.scheduled)
    requires start.Empty?
    modifies store
    ensures store.Valid() && store.Stage(a) == None && Grows(old(store.model), store.model)
    ensures VisitedWell(rows, os, store.model.removed, store.failing)
    ensures store.Steps(a) == AfterRows(old(store.Steps(a)), a, rows, os)
    ensures if stopped then told && !failed else next.Empty? && (failed || |os| == |rows|)
    ensures failed ==> PageCall in store.failing
  {
    next, stopped, failed, os := start, false, false, [];
    while true
      invariant store.Valid() && store.Stage(a) == None && Grows(old(store.model), store.model)
      invariant |os| == Offset(next) && !stopped && !failed
      invariant VisitedWell(rows, os, store.model.removed, store.failing)
      invariant store.Steps(a) == AfterRows(old(store.Steps(a)), a, rows, os)
      decreases |rows| - Offset(next), next.Empty?
    {
      var page;
      page, next := GetScheduledRuns(rows, next, PageCall in store.failing);
      if page.None? {
        failed := true;
        return;
      }
      stopped, os := VisitPage(store, a, page.value, told, rows, old(store.Steps(a)), os);
      if stopped || next.Empty? {
        return;
      }
    }
  }

  /** A sweep that came to its end, in a store where no call fails, sends all runs of tasks
      that have not been removed; and any sweep sends no run twice or out of order. */
  lemma SweepSendsAll(log: SweepLog, runs: map<RunKey, Key>, removed: set<Key>, failing: set<Operation>)
    requires SweptWell(log, removed, failing) && log.table == RunsIn(runs, log.day)
    ensures IsPartition(log.rows, runs, log.day)
    ensures InOrder(SentRuns(log.rows, log.os))
    ensures forall r | r in SentRuns(log.rows, log.os) :: RunKey(log.day, r.nextRun) in runs
    ensures failing == {} && Complete(log) &&
            (forall rk | rk in runs && rk.partition == log.day :: runs[rk] !in removed) ==>
              SentRuns(log.rows, log.os) == log.rows
  {
    PartitionOfTable(log.rows, runs, log.day);
    SentInOrder(log.rows, log.os);
    assert log.rows[..|log.rows|] == log.rows;
    forall r | r in log.rows[..|log.os|] ensures r in log.rows {
    }
    if failing == {} && Complete(log) && forall rk | rk in runs && rk.partition == log.day :: runs[rk] !in removed {
      AllSentMeansAll(log.rows, log.os, removed);
    }
  }

  // --- The daemon ---------------------------------------------------------------------

  predicate Measured(logs: seq<SweepLog>) {
    forall log | log in logs :: |log.os| <= |log.rows|
  }

  /** `t`, and then these sweeps, one after the other. */
  function AfterSweeps(t: Trace, a: nat, logs: seq<SweepLog>): Trace
    requires Measured(logs)
  {
    if logs == [] then t
    else
      var n := |logs| - 1;
      assert forall log | log in logs[..n] :: log in logs;
      AfterSweep(AfterSweeps(t, a, logs[..n]), a, logs[n])
  }

  /** The sweeps of these days, each of them well done, the last one perhaps cut short. */
  ghost predicate AllSweptWell(logs: seq<SweepLog>, days: seq<int>, removed: set<Key>,
                               failing: set<Operation>, cut: bool) {
    |logs| <= |days| &&
    forall i | 0 <= i < |logs| ::
      logs[i].day == days[i] && SweptWell(logs[i], removed, failing) &&
      (Complete(logs[i]) || (cut && i == |logs| - 1))
  }

  lemma AllWellOneMore(logs: seq<SweepLog>, days: seq<int>, removed: set<Key>, failing: set<Operation>,
                       log: SweepLog, later: set<Key>, cut: bool)
    requires AllSweptWell(logs, days, removed, failing, false) && removed <= later && |logs| < |days|
    requires log.day == days[|logs|] && SweptWell(log, later, failing) && (Complete(log) || cut)
    ensures AllSweptWell(logs + [log], days, later, failing, cut)
  {
  }

  lemma OneMoreSweep(t: Trace, a: nat, logs: seq<SweepLog>, log: SweepLog)
    requires Measured(logs) && |log.os| <= |log.rows|
    ensures Measured(logs + [log])
    ensures AfterSweeps(t, a, logs + [log]) == AfterSweep(AfterSweeps(t, a, logs), a, log)
  {
    assert (logs + [log])[..|logs|] == logs;
  }

  /** `runSchedulerDaemon`, for as many readings of the clock as are given, or until it stops
      because it was told to. The cursor outlives a sweep, yet every sweep starts at the
      beginning of its partition: the call of `Sweep` needs an empty cursor, also after a
      failed page query. Others move while the daemon waits. */
  method RunSchedulerDaemon(store: Store, a: nat, days: seq<int>, told: bool)
    returns (stopped: bool, ghost logs: seq<SweepLog>)
    requires store.Valid() && store.Stage(a) == None
    modifies store
    ensures store.Valid() && store.Stage(a) == None && Grows(old(store.model), store.model)
    ensures AllSweptWell(logs, days, store.model.removed, store.failing, stopped)
    ensures Measured(logs) && store.Steps(a) == AfterSweeps(old(store.Steps(a)), a, logs)
    ensures if stopped then told else |logs| == |days|
  {
    var nextPage: Cursor := Empty;
    stopped, logs := false, [];
    var sweeps := 0;
    while sweeps < |days|
      invariant sweeps == |logs| <= |days| && nextPage.Empty? && !stopped
      invariant store.Valid() && store.Stage(a) == None && Grows(old(store.model), store.model)
      invariant AllSweptWell(logs, days, store.model.removed, store.failing, false)
      invariant Measured(logs) && store.Steps(a) == AfterSweeps(old(store.Steps(a)), a, logs)
    {
      var shutdown: bool := *;
      if told && shutdown {
        return true, logs;
      }
      nextPage, stopped, logs := SweepOnce(store, a, days[sweeps], nextPage, told, days, old(store.Steps(a)), logs);
      sweeps := sweeps + 1;
      if stopped {
        return;
      }
    }
  }

  /** One turn of the outer loop, after the sweeps `logs`. */
  method SweepOnce(store: Store, a: nat, day: int, start: Cursor, told: bool,
                   ghost days: seq<int>, ghost first: Trace, ghost logs: seq<SweepLog>)
    returns (next: Cursor, stopped: bool, ghost more: seq<SweepLog>)
    requires store.Valid() && store.Stage(a) == None && start.Empty?
    requires |logs| < |days| && day == days[|logs|]
    requires AllSweptWell(logs, days, store.model.removed, store.failing, false)
    requires Measured(logs) && store.Steps(a) == AfterSweeps(first, a, logs)
    modifies store
    ensures store.Valid() && store.Stage(a) == None && Grows(old(store.model), store.model)
    ensures |more| == |logs| + 1 && AllSweptWell(more, days, store.model.removed, store.failing, stopped)
    ensures Measured(more) && store.Steps(a) == AfterSweeps(first, a, more)
    ensures if stopped then told else next.Empty?
  {
    ghost var removed := store.model.removed;
    store.Interfere(a);
    ghost var log;
    next, stopped, log := Sweep(store, a, day, start, told);
    OneMoreSweep(first, a, logs, log);
    AllWellOneMore(logs, days, removed, store.failing, log, store.model.removed, stopped);
    more := logs + [log];
  }

  // --- Sweeps and the table -----------------------------------------------------------

  lemma {:induction false} RowsExtend(t: Trace, a: nat, rows: seq<Run>, os: seq<RowOutcome>, u: Trace)
    requires |os| <= |rows| && IsPrefix(u, t)
    ensures IsPrefix(u, AfterRows(t, a, rows, os))
  {
    if os != [] {
      var n := |os| - 1;
      RowsExtend(t, a, rows, os[..n], u);
      RowExtends(AfterRows(t, a, rows, os[..n]), a, rows[n].key, os[n], u);
    }
  }

  lemma RowExtends(t: Trace, a: nat, k: Key, o: RowOutcome, u: Trace)
    requires IsPrefix(u, t)
    ensures IsPrefix(u, AfterRow(t, a, k, o))
  {
  }

  lemma {:induction false} SweepIsInside(t: Trace, a: nat, logs: seq<SweepLog>, i: nat)
    requires Measured(logs) && i < |logs|
    ensures Measured(logs[..i])
    ensures IsPrefix(Noting(AfterSweeps(t, a, logs[..i]), a, SawRuns(logs[i].day, logs[i].table)),
                     AfterSweeps(t, a, logs))
  {
    var n := |logs| - 1;
    var before, log := logs[..n], logs[n];
    var began := Noting(AfterSweeps(t, a, before), a, SawRuns(log.day, log.table));
    var seen := Noting(AfterSweeps(t, a, logs[..i]), a, SawRuns(logs[i].day, logs[i].table));
    if i < n {
      SweepIsInside(t, a, before, i);
      assert before[..i] == logs[..i];
    }
    RowsExtend(began, a, log.rows, log.os, seen);
  }

  /** Each sweep was of the table as it was at that moment of the run: when the daemon had
      done the earlier sweeps and nothing since. It is not before `t0`, if the sweep is not. */
  lemma SweepsAreOfTheTable(t0: Trace, t: Trace, a: nat, first: Trace, logs: seq<SweepLog>, i: nat,
                            removed: set<Key>, failing: set<Operation>)
    returns (u: Trace)
    requires Reached(t).Some? && Measured(logs) && OwnTrace(t, a) == AfterSweeps(first, a, logs)
    requires i < |logs| && SweptWell(logs[i], removed, failing)
    requires IsPrefix(t0, t) && Measured(logs[..i]) && IsPrefix(OwnTrace(t0, a), AfterSweeps(first, a, logs[..i]))
    ensures IsPrefix(u, t) && IsPrefix(t0, u) && Reached(u).Some?
    ensures OwnTrace(u, a) == AfterSweeps(first, a, logs[..i])
    ensures IsPartition(logs[i].rows, Reached(u).value.runs, logs[i].day)
  {
    SweepIsInside(first, a, logs, i);
    u := OwnNoteWasTrue(t0, t, a, Noting(AfterSweeps(first, a, logs[..i]), a, SawRuns(logs[i].day, logs[i].table)));
    PartitionOfTable(logs[i].rows, Reached(u).value.runs, logs[i].day);
  }
}
