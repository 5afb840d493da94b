/** From the instant a run is stored to the message that is sent for it. */
module DueRuns {
  import opened Wrappers
  import opened Plans
  import opened Protocol
  import opened Safety
  import opened Traces
  import opened StatusHistory
  import opened Stores
  import opened ScheduledTasks
  import opened Daemon

  /** From `t0` to `t` no other run is inserted at the instant of the run. */
  predicate KeptSince(t0: Trace, t: Trace, rk: RunKey, k: Key) {
    t == t0 ||
    (!t.Start? && KeptSince(t0, t.before, rk, k) &&
     (t.Then? && Reached(t.before).Some? ==> !InsertsOtherRun(Reached(t.before).value, t.last, rk, k)))
  }

  lemma {:induction false} KeptIsHeld(t0: Trace, t: Trace, rk: RunKey, k: Key)
    requires Reached(t).Some? && KeptSince(t0, t, rk, k)
    ensures Reached(t0).Some?
    ensures Holds(Reached(t0).value, rk, k) ==> Holds(Reached(t).value, rk, k)
  {
    if t != t0 {
      KeptIsHeld(t0, t.before, rk, k);
      if t.Then? {
        HeldAfterStep(Reached(t.before).value, t.last, rk, k);
      }
    }
  }

  lemma {:induction false} KeptUntil(t0: Trace, u: Trace, t: Trace, rk: RunKey, k: Key)
    requires IsPrefix(t0, u) && IsPrefix(u, t) && KeptSince(t0, t, rk, k)
    ensures KeptSince(t0, u, rk, k)
  {
    if u != t {
      if t == t0 {
        PrefixIsShorter(t0, u);
        PrefixIsShorter(u, t.before);
      }
      KeptUntil(t0, u, t.before, rk, k);
    }
  }

  /** Sweep `i` of goroutine `d` began after `t0`. */
  predicate BeganAfter(t0: Trace, d: nat, first: Trace, logs: seq<SweepLog>, i: nat)
    requires i < |logs| && Measured(logs[..i])
  {
    IsPrefix(OwnTrace(t0, d), AfterSweeps(first, d, logs[..i]))
  }

  /** A run that the table holds at `t0`, stored for the instant `now`, is among the rows of
      every later sweep of the day of that instant, unless another run takes its place. If no
      call of a sweep fails, no task row is removed and nobody stops the sweep, it is sent. */
  lemma StoredRunIsSwept(t0: Trace, t: Trace, d: nat, first: Trace, logs: seq<SweepLog>, i: nat,
                         removed: set<Key>, failing: set<Operation>, rk: RunKey, k: Key, now: Instant)
    requires Reached(t0).Some? && Reached(t).Some? && IsPrefix(t0, t)
    requires Holds(Reached(t0).value, rk, k) && IsRunAt(rk, now) && KeptSince(t0, t, rk, k)
    requires i < |logs| && Measured(logs) && Measured(logs[..i]) && OwnTrace(t, d) == AfterSweeps(first, d, logs)
    requires BeganAfter(t0, d, first, logs, i) && SweptWell(logs[i], removed, failing) && logs[i].day == now.day
    ensures Run(k, rk.nextRun) in logs[i].rows
    ensures failing == {} && Complete(logs[i]) && k !in removed ==>
              Run(k, rk.nextRun) in SentRuns(logs[i].rows, logs[i].os)
  {
    var u := SweepsAreOfTheTable(t0, t, d, first, logs, i, removed, failing);
    KeptUntil(t0, u, t, rk, k);
    KeptIsHeld(t0, u, rk, k);
    if failing == {} && Complete(logs[i]) && k !in removed {
      var j :| 0 <= j < |logs[i].rows| && logs[i].rows[j] == Run(k, rk.nextRun);
      RowIsSent(logs[i].rows, logs[i].os, removed, j);
    }
  }

  /** A row whose task was not removed is sent when no call fails. */
  lemma {:induction false} RowIsSent(rows: seq<Run>, os: seq<RowOutcome>, removed: set<Key>, j: nat)
    requires VisitedWell(rows, os, removed, {}) && j < |os| && rows[j].key !in removed
    ensures os[j].SentAs? && rows[j] in SentRuns(rows, os)
  {
    var n := |os| - 1;
    if j < n {
      RowIsSent(rows, os[..n], removed, j);
    }
  }

  /** Any message that a sweep sent carries the task of its run, column by column, as the
      task was created, unless the row was removed. */
  lemma SentRowCarriesTask(t: Trace, d: nat, first: Trace, logs: seq<SweepLog>, i: nat, j: nat, k: Key)
    requires Reached(t).Some? && Measured(logs) && OwnTrace(t, d) == AfterSweeps(first, d, logs)
    requires i < |logs| && j < |logs[i].os| && WasSent(logs[i].os[j]) && logs[i].rows[j].key == k
    ensures var s, mid := Reached(t).value, logs[i].os[j].mid;
            mid in s.accepted && k in s.created && (k in s.removed || CarriesTask(s.accepted[mid], k, s.created[k]))
  {
    var log := logs[i];
    var x := RowIsInside(first, d, logs, i, j);
    var m := RunIsAccepted(t, d, x, k, log.os[j].mid);
  }

  lemma {:induction false} RowIsInside(first: Trace, d: nat, logs: seq<SweepLog>, i: nat, j: nat) returns (x: Trace)
    requires Measured(logs) && i < |logs| && j < |logs[i].os| && WasSent(logs[i].os[j])
    ensures IsPrefix(Then(Then(x, ReadRun(d, logs[i].rows[j].key)), Enqueue(d, logs[i].os[j].mid)),
                     AfterSweeps(first, d, logs))
  {
    var n := |logs| - 1;
    var before, log := logs[..n], logs[n];
    var began := Noting(AfterSweeps(first, d, before), d, SawRuns(log.day, log.table));
    if i < n {
      x := RowIsInside(first, d, before, i, j);
      RowsExtend(began, d, log.rows, log.os,
                 Then(Then(x, ReadRun(d, logs[i].rows[j].key)), Enqueue(d, logs[i].os[j].mid)));
    } else {
      x := RowInRows(began, d, log.rows, log.os, j);
    }
  }

  lemma {:induction false} RowInRows(t: Trace, d: nat, rows: seq<Run>, os: seq<RowOutcome>, j: nat) returns (x: Trace)
    requires |os| <= |rows| && j < |os| && WasSent(os[j])
    ensures IsPrefix(Then(Then(x, ReadRun(d, rows[j].key)), Enqueue(d, os[j].mid)), AfterRows(t, d, rows, os))
  {
    var n := |os| - 1;
    if j < n {
      x := RowInRows(t, d, rows, os[..n], j);
      RowExtends(AfterRows(t, d, rows, os[..n]), d, rows[n].key, os[n],
                 Then(Then(x, ReadRun(d, rows[j].key)), Enqueue(d, os[j].mid)));
    } else {
      x := AfterRows(t, d, rows, os[..n]);
    }
  }
}
