/** The status of a consignment row follows the status of its task. */
module ConsignmentHistory {
  import opened Wrappers
  import opened Text
  import opened Protocol
  import opened Safety
  import opened Delivery

  // --- Consignments -------------------------------------------------------------------

  /** A consignment row holds queued, completed or failed, and completed or failed only for
      an authenticated response with that outcome, from the device of a task row with this
      consignment, whose token agreed with that row and after that row was written with
      that very status. */
  lemma ConsignmentFollowsTask(ls: seq<Label>, s: State, ck: ConsignmentKey)
    requires Exec(INITIAL, ls) == Some(s) && ck in s.consignments
    ensures s.consignments[ck] in {Queued, Completed, Failed}
    ensures s.consignments[ck] != Queued ==>
              exists r, m :: Agreed(s, r, m) && Says(r.taskStatus, s.consignments[ck]) &&
                             ck == ConsignmentKey(m.tenant, m.consignment, r.taskId) &&
                             (Key(r.subject, r.taskId), s.consignments[ck]) in s.writes
  {
    InvAfter(ls, s);
    if s.consignments[ck] != Queued {
      var r, m :| SettledBy(s, ck, s.consignments[ck], r, m);
      OutcomeIffSays(r.taskStatus, s.consignments[ck]);
    }
  }

  predicate Finished(s: State, ck: ConsignmentKey) {
    ck in s.consignments && s.consignments[ck].Terminal()
  }

  /** What one step does to whether a row is finished: a write finishes it, its own insert
      turns it back, and nothing else matters. */
  lemma FinishedAfterStep(s: State, l: Label, ck: ConsignmentKey)
    requires Next(s, l).Some? && PcsInv(s)
    ensures Finished(Next(s, l).value, ck) <==> Settles(s, l, ck) || (Finished(s, ck) && !Inserts(s, l, ck))
  {
    if l.WriteConsignment? {
      assert PcInv(s, s.pcs[l.actor]);
    }
  }

  // --- Turning back, exactly ----------------------------------------------------------

  /** Step `n` of a run from the empty state does this to `ck`. */
  predicate InsertsAt(ls: seq<Label>, n: nat, ck: ConsignmentKey) {
    n < |ls| && After(ls, n).Some? && Inserts(After(ls, n).value, ls[n], ck)
  }

  predicate SettlesAt(ls: seq<Label>, n: nat, ck: ConsignmentKey) {
    n < |ls| && After(ls, n).Some? && Settles(After(ls, n).value, ls[n], ck)
  }

  predicate FinishedAt(ls: seq<Label>, n: nat, ck: ConsignmentKey) {
    n <= |ls| && After(ls, n).Some? && Finished(After(ls, n).value, ck)
  }

  lemma FinishedAtStep(ls: seq<Label>, n: nat, ck: ConsignmentKey)
    requires n < |ls| && Exec(INITIAL, ls).Some?
    ensures FinishedAt(ls, n + 1, ck) <==> SettlesAt(ls, n, ck) || (FinishedAt(ls, n, ck) && !InsertsAt(ls, n, ck))
  {
    PrefixRuns(ls, n);
    PrefixRuns(ls, n + 1);
    AfterOneMore(ls, n);
    InvAfter(ls[..n], After(ls, n).value);
    FinishedAfterStep(After(ls, n).value, ls[n], ck);
  }

  /** A row that is finished was written before. */
  lemma {:induction false} FinishedWasSettled(ls: seq<Label>, n: nat, ck: ConsignmentKey) returns (i: nat)
    requires Exec(INITIAL, ls).Some? && FinishedAt(ls, n, ck)
    ensures i < n && SettlesAt(ls, i, ck)
    decreases n
  {
    assert n != 0 by {
      assert ls[..0] == [];
    }
    FinishedAtStep(ls, n - 1, ck);
    if SettlesAt(ls, n - 1, ck) {
      i := n - 1;
    } else {
      i := FinishedWasSettled(ls, n - 1, ck);
    }
  }

  /** One that is finished and later is not was inserted in between. */
  lemma {:induction false} TurnedBackWasInserted(ls: seq<Label>, n: nat, m: nat, ck: ConsignmentKey) returns (j: nat)
    requires Exec(INITIAL, ls).Some? && n < m <= |ls| && FinishedAt(ls, n, ck) && !FinishedAt(ls, m, ck)
    ensures n <= j < m && InsertsAt(ls, j, ck)
    decreases m
  {
    FinishedAtStep(ls, m - 1, ck);
    if InsertsAt(ls, m - 1, ck) {
      j := m - 1;
    } else {
      j := TurnedBackWasInserted(ls, n, m - 1, ck);
    }
  }

  /** The row is finished at some time and not finished at a later one. */
  ghost predicate TurnsBack(ls: seq<Label>, ck: ConsignmentKey) {
    exists n: nat, m: nat :: n < m <= |ls| && FinishedAt(ls, n, ck) && !FinishedAt(ls, m, ck)
  }

  ghost predicate SettledThenInserted(ls: seq<Label>, ck: ConsignmentKey) {
    exists i: nat, j: nat :: i < j && SettlesAt(ls, i, ck) && InsertsAt(ls, j, ck)
  }

  lemma TurnsBackOnlyIf(ls: seq<Label>, n: nat, m: nat, ck: ConsignmentKey)
    requires Exec(INITIAL, ls).Some? && n < m <= |ls| && FinishedAt(ls, n, ck) && !FinishedAt(ls, m, ck)
    ensures SettledThenInserted(ls, ck)
  {
    var i := FinishedWasSettled(ls, n, ck);
    var j := TurnedBackWasInserted(ls, n, m, ck);
    assert i < j && SettlesAt(ls, i, ck) && InsertsAt(ls, j, ck);
  }

  lemma TurnsBackIf(ls: seq<Label>, i: nat, j: nat, ck: ConsignmentKey)
    requires Exec(INITIAL, ls).Some? && i < j && SettlesAt(ls, i, ck) && InsertsAt(ls, j, ck)
    ensures TurnsBack(ls, ck)
  {
    FinishedAtStep(ls, i, ck);
    FinishedAtStep(ls, j, ck);
    assert !SettlesAt(ls, j, ck);
    assert FinishedAt(ls, i + 1, ck) && !FinishedAt(ls, j + 1, ck);
  }

  /** Over every run: a consignment row goes from finished back to queued if and only if it
      is written for a response before the request that creates the task inserts it. */
  lemma TurnsBackIffSettledFirst(ls: seq<Label>, ck: ConsignmentKey)
    requires Exec(INITIAL, ls).Some?
    ensures TurnsBack(ls, ck) <==> SettledThenInserted(ls, ck)
  {
    if TurnsBack(ls, ck) {
      var n: nat, m: nat :| n < m <= |ls| && FinishedAt(ls, n, ck) && !FinishedAt(ls, m, ck);
      TurnsBackOnlyIf(ls, n, m, ck);
    }
    if SettledThenInserted(ls, ck) {
      var i: nat, j: nat :| i < j && SettlesAt(ls, i, ck) && InsertsAt(ls, j, ck);
      TurnsBackIf(ls, i, j, ck);
    }
  }

  // --- The guard that matters ---------------------------------------------------------

  /** Goroutine `a` has inserted the task row that goes with `ck`, but not `ck` itself. */
  predicate Storing(s: State, a: nat, ck: ConsignmentKey) {
    a in s.pcs && s.pcs[a].TaskStored? && ConsignmentKeyOf(s.pcs[a].key, s.pcs[a].meta) == ck
  }

  /** The step lets a response through to the status writes although the consignment of its
      task is still to be inserted. Any other response, also one that names a task nobody
      knows, does no harm. */
  predicate EarlyMatch(s: State, l: Label) {
    l.Match? && l.actor in s.pcs && s.pcs[l.actor].Validated? &&
    var k := KeyAnswered(s.pcs[l.actor].r);
    k in s.tasks && exists a | a in s.pcs :: Storing(s, a, ConsignmentKeyOf(k, s.tasks[k].meta))
  }

  predicate NoEarlyMatch(s: State, ls: seq<Label>)
    decreases ls
  {
    ls == [] ||
    (!EarlyMatch(s, ls[0]) && (Next(s, ls[0]).Some? ==> NoEarlyMatch(Next(s, ls[0]).value, ls[1..])))
  }

  /** The goroutine may yet write the consignment row of the task it answers for. */
  predicate MaySettle(pc: Pc, ck: ConsignmentKey) {
    (pc.Matched? || pc.TaskWritten? || pc.Settled?) && ConsignmentKeyOf(KeyAnswered(pc.r), pc.meta) == ck
  }

  /** The task id that goroutine `a` is storing is its own, its consignment row is not there
      yet, and nobody is about to write it. */
  predicate StoresFreshTask(s: State, a: nat)
    requires a in s.pcs && s.pcs[a].TaskStored?
  {
    var ck := ConsignmentKeyOf(s.pcs[a].key, s.pcs[a].meta);
    ck !in s.consignments &&
    (forall b | b in s.pcs && b != a && s.pcs[b].TaskStored? :: s.pcs[b].key.task != ck.task) &&
    (forall b | b in s.pcs :: !MaySettle(s.pcs[b], ck))
  }

  predicate StoringInv(s: State) {
    (forall ck | ck in s.consignments :: ck.task in s.issued) &&
    (forall a | a in s.pcs && s.pcs[a].TaskStored? :: StoresFreshTask(s, a))
  }

  /** What every goroutine carries names an issued task id. */
  lemma CarriedIsIssued(s: State, a: nat)
    requires PcsInv(s) && IssuedInv(s) && a in s.pcs
    ensures s.pcs[a].TaskStored? ==> s.pcs[a].key.task in s.issued
    ensures s.pcs[a].Matched? || s.pcs[a].TaskWritten? || s.pcs[a].Settled? ==> s.pcs[a].r.taskId in s.issued
  {
    assert PcInv(s, s.pcs[a]);
  }

  lemma InsertTaskKeepsStoring(s: State, l: Label)
    requires l.InsertTask? && Next(s, l).Some? && StoringInv(s) && PcsInv(s) && IssuedInv(s)
    ensures StoringInv(Next(s, l).value)
  {
    var t := SchedulingStep(s, l).value;
    forall a | a in t.pcs && t.pcs[a].TaskStored? ensures StoresFreshTask(t, a) {
      forall b | b in s.pcs ensures t.pcs[b] == s.pcs[b] {
        CarriedIsIssued(s, b);
      }
      if a != l.actor {
        assert StoresFreshTask(s, a);
        CarriedIsIssued(s, a);
      } else {
        NewTaskIsFresh(s, l);
      }
    }
  }

  lemma NewTaskIsFresh(s: State, l: Label)
    requires l.InsertTask? && Next(s, l).Some? && StoringInv(s) && PcsInv(s) && IssuedInv(s)
    ensures l.actor in Next(s, l).value.pcs && Next(s, l).value.pcs[l.actor] == TaskStored(l.key, l.meta, l.once)
    ensures StoresFreshTask(Next(s, l).value, l.actor)
  {
    forall b | b in s.pcs
      ensures s.pcs[b].TaskStored? ==> s.pcs[b].key.task != l.key.task
      ensures !MaySettle(s.pcs[b], ConsignmentKeyOf(l.key, l.meta))
    {
      CarriedIsIssued(s, b);
    }
  }

  lemma InsertConsignmentKeepsStoring(s: State, l: Label)
    requires l.InsertConsignment? && Next(s, l).Some? && StoringInv(s) && PcsInv(s) && IssuedInv(s)
    ensures StoringInv(Next(s, l).value)
  {
    var t := SchedulingStep(s, l).value;
    CarriedIsIssued(s, l.actor);
    assert StoresFreshTask(s, l.actor);
    forall a | a in t.pcs && t.pcs[a].TaskStored? ensures StoresFreshTask(t, a) {
      assert a != l.actor && s.pcs[a] == t.pcs[a];
      assert StoresFreshTask(s, a);
    }
  }

  lemma WriteConsignmentKeepsStoring(s: State, l: Label)
    requires l.WriteConsignment? && Next(s, l).Some? && StoringInv(s) && PcsInv(s) && IssuedInv(s)
    ensures StoringInv(Next(s, l).value)
  {
    var t := ResponseStep(s, l).value;
    CarriedIsIssued(s, l.actor);
    forall a | a in t.pcs && t.pcs[a].TaskStored? ensures StoresFreshTask(t, a) {
      assert a != l.actor && s.pcs[a] == t.pcs[a];
      assert StoresFreshTask(s, a);
      assert !MaySettle(s.pcs[l.actor], ConsignmentKeyOf(s.pcs[a].key, s.pcs[a].meta));
    }
  }

  /** `l` moves at most its own goroutine, not into the storing of a task, and into the
      writing of `ck` only if it was there already or `ck` is not being stored. */
  predicate QuietMove(s: State, t: State) {
    t.consignments == s.consignments && s.issued <= t.issued &&
    forall b | b in t.pcs ::
      (b in s.pcs && t.pcs[b] == s.pcs[b]) || (!t.pcs[b].TaskStored? && MayMove(s, b, t.pcs[b]))
  }

  predicate MayMove(s: State, b: nat, pc: Pc) {
    (pc.Matched? || pc.TaskWritten? || pc.Settled?) ==>
      var ck := ConsignmentKeyOf(KeyAnswered(pc.r), pc.meta);
      (b in s.pcs && MaySettle(s.pcs[b], ck)) || forall a | a in s.pcs :: !Storing(s, a, ck)
  }

  lemma QuietMoveKeepsStoring(s: State, t: State)
    requires StoringInv(s) && QuietMove(s, t)
    ensures StoringInv(t)
  {
    forall a | a in t.pcs && t.pcs[a].TaskStored? ensures StoresFreshTask(t, a) {
      assert a in s.pcs && t.pcs[a] == s.pcs[a] && StoresFreshTask(s, a);
      var ck := ConsignmentKeyOf(s.pcs[a].key, s.pcs[a].meta);
      assert Storing(s, a, ck);
      forall b | b in t.pcs ensures !MaySettle(t.pcs[b], ck) {
        assert b in s.pcs ==> !MaySettle(s.pcs[b], ck);
      }
    }
  }

  lemma SchedulingIsQuiet(s: State, l: Label)
    requires (l.InsertRun? || l.Enqueue? || l.ReadRun?) && Next(s, l).Some?
    ensures QuietMove(s, Next(s, l).value)
  {
  }

  lemma DispatchIsQuiet(s: State, l: Label)
    requires IsDispatch(l) && Next(s, l).Some?
    ensures QuietMove(s, Next(s, l).value)
  {
  }

  lemma ResponseIsQuiet(s: State, l: Label)
    requires IsResponse(l) && !l.WriteConsignment? && Next(s, l).Some? && !EarlyMatch(s, l)
    ensures QuietMove(s, Next(s, l).value)
  {
  }

  lemma OtherIsQuiet(s: State, l: Label)
    requires (l.Abandon? || l.ForeignSend? || l.Redeliver? || l.RemoveTask?) && Next(s, l).Some?
    ensures QuietMove(s, Next(s, l).value)
  {
  }

  lemma StoringKept(s: State, l: Label)
    requires Next(s, l).Some? && StoringInv(s) && PcsInv(s) && IssuedInv(s) && !EarlyMatch(s, l)
    ensures StoringInv(Next(s, l).value)
  {
    if l.InsertTask? {
      InsertTaskKeepsStoring(s, l);
    } else if l.InsertConsignment? {
      InsertConsignmentKeepsStoring(s, l);
    } else if l.WriteConsignment? {
      WriteConsignmentKeepsStoring(s, l);
    } else {
      if IsDispatch(l) {
        DispatchIsQuiet(s, l);
      } else if IsResponse(l) {
        ResponseIsQuiet(s, l);
      } else if IsScheduling(l) {
        SchedulingIsQuiet(s, l);
      } else {
        OtherIsQuiet(s, l);
      }
      QuietMoveKeepsStoring(s, Next(s, l).value);
    }
  }

  lemma NoFinishedRowIsInserted(s: State, l: Label, ck: ConsignmentKey)
    requires StoringInv(s) && Finished(s, ck)
    ensures !Inserts(s, l, ck)
  {
    assert Inserts(s, l, ck) ==> StoresFreshTask(s, l.actor);
  }

  /** Without early matches a finished consignment row stays finished, however long the run
      goes on; it may still change between completed and failed. */
  lemma {:induction false} FinishedStaysFinished(s: State, ls: seq<Label>, t: State, ck: ConsignmentKey)
    requires Inv(s) && StoringInv(s) && Exec(s, ls) == Some(t) && NoEarlyMatch(s, ls) && Finished(s, ck)
    ensures Finished(t, ck)
    decreases ls
  {
    if ls != [] {
      StepKeepsInv(s, ls[0]);
      StoringKept(s, ls[0]);
      FinishedAfterStep(s, ls[0], ck);
      NoFinishedRowIsInserted(s, ls[0], ck);
      FinishedStaysFinished(Next(s, ls[0]).value, ls[1..], t, ck);
    }
  }

  lemma {:induction false} StoringInvAfter(s: State, ls: seq<Label>, t: State)
    requires Inv(s) && StoringInv(s) && Exec(s, ls) == Some(t) && NoEarlyMatch(s, ls)
    ensures StoringInv(t)
    decreases ls
  {
    if ls != [] {
      StepKeepsInv(s, ls[0]);
      StoringKept(s, ls[0]);
      StoringInvAfter(Next(s, ls[0]).value, ls[1..], t);
    }
  }

  /** From the empty state: once finished after `ls`, finished after `ls + ms`. */
  lemma ConsignmentMonotone(ls: seq<Label>, ms: seq<Label>, s: State, t: State, ck: ConsignmentKey)
    requires Exec(INITIAL, ls) == Some(s) && NoEarlyMatch(INITIAL, ls)
    requires Exec(s, ms) == Some(t) && NoEarlyMatch(s, ms)
    requires Finished(s, ck)
    ensures Finished(t, ck)
  {
    InvAfter(ls, s);
    StoringInvAfter(INITIAL, ls, s);
    FinishedStaysFinished(s, ms, t, ck);
  }

  // --- The guard is exact -------------------------------------------------------------

  /** Wherever an early match is possible, the run can go on so that a finished row is
      turned back: the response is handled to the end, and then the row inserted. */
  lemma EarlyMatchCanTurnBack(s: State, a: nat, b: nat, r: Response, m: Meta)
    requires a != b && At(s, b) == Some(Validated(r)) && ResponseStep(s, Match(b)).Some?
    requires KeyAnswered(r) in s.tasks && s.tasks[KeyAnswered(r)].meta == m
    requires Storing(s, a, ConsignmentKeyOf(KeyAnswered(r), m))
    ensures var ck := ConsignmentKeyOf(KeyAnswered(r), m);
            var handled := Exec(s, [Match(b), WriteTask(b), WriteConsignment(b)]);
            handled.Some? && Finished(handled.value, ck) && CanTurnBack(handled.value, a, ck)
  {
    MatchStep(s, a, b, r, m);
    var s1 := ResponseStep(s, Match(b)).value;
    WriteTaskStep(s1, a, b, r, m);
    var s2 := ResponseStep(s1, WriteTask(b)).value;
    WriteConsignmentStep(s2, a, b, r, m);
    var s3 := ResponseStep(s2, WriteConsignment(b)).value;
    ThreeSteps(s, Match(b), WriteTask(b), WriteConsignment(b));
    InsertStep(s3, a, ConsignmentKeyOf(KeyAnswered(r), m));
  }

  /** The next step of `a` turns the row to queued. */
  predicate CanTurnBack(s: State, a: nat, ck: ConsignmentKey) {
    var stored := Next(s, InsertConsignment(a));
    stored.Some? && ck in stored.value.consignments && stored.value.consignments[ck] == Queued
  }

  lemma MatchStep(s: State, a: nat, b: nat, r: Response, m: Meta)
    requires a != b && At(s, b) == Some(Validated(r)) && ResponseStep(s, Match(b)).Some?
    requires KeyAnswered(r) in s.tasks && s.tasks[KeyAnswered(r)].meta == m
    ensures var t := ResponseStep(s, Match(b)).value;
            At(t, b) == Some(Matched(r, m)) && At(t, a) == At(s, a) && Outcome(r.taskStatus).Some?
  {
  }

  lemma WriteTaskStep(s: State, a: nat, b: nat, r: Response, m: Meta)
    requires a != b && At(s, b) == Some(Matched(r, m)) && Outcome(r.taskStatus).Some?
    ensures ResponseStep(s, WriteTask(b)).Some?
    ensures var t := ResponseStep(s, WriteTask(b)).value; At(t, b) == Some(TaskWritten(r, m)) && At(t, a) == At(s, a)
  {
  }

  lemma WriteConsignmentStep(s: State, a: nat, b: nat, r: Response, m: Meta)
    requires a != b && At(s, b) == Some(TaskWritten(r, m)) && Outcome(r.taskStatus).Some?
    ensures ResponseStep(s, WriteConsignment(b)).Some?
    ensures var t := ResponseStep(s, WriteConsignment(b)).value;
            At(t, a) == At(s, a) && Finished(t, ConsignmentKeyOf(KeyAnswered(r), m))
  {
  }

  lemma InsertStep(s: State, a: nat, ck: ConsignmentKey)
    requires Storing(s, a, ck)
    ensures CanTurnBack(s, a, ck)
  {
    assert SchedulingStep(s, InsertConsignment(a)).Some?;
  }

  /** An early match is reachable, for every task and every response that agrees with it:
      two steps from the empty state, the task inserted and the response validated. */
  lemma EarlyMatchIsReachable(a: nat, b: nat, k: Key, m: Meta, once: bool, r: Response)
    requires a != b && KeyAnswered(r) == k && Matches(r, m) && Outcome(r.taskStatus).Some?
    ensures var run := Exec(INITIAL, [InsertTask(a, k, m, once), Validate(b, r)]);
            run.Some? && ResponseStep(run.value, Match(b)).Some? && EarlyMatch(run.value, Match(b)) &&
            At(run.value, b) == Some(Validated(r)) && Storing(run.value, a, ConsignmentKeyOf(k, m)) &&
            k in run.value.tasks && run.value.tasks[k].meta == m
  {
    var l1, l2 := InsertTask(a, k, m, once), Validate(b, r);
    var s1 := TaskInserted(a, k, m, once);
    var s2 := ResponseValidated(s1, a, b, r);
    ExecFirst(INITIAL, l1, [l2]);
    ExecFirst(s1, l2, []);
    assert [l1] + [l2] == [l1, l2] && [l2] + [] == [l2];
    assert Storing(s2, a, ConsignmentKeyOf(k, m));
  }

  lemma TaskInserted(a: nat, k: Key, m: Meta, once: bool) returns (s: State)
    ensures Next(INITIAL, InsertTask(a, k, m, once)) == Some(s)
    ensures s.pcs == map[a := TaskStored(k, m, once)] && k in s.tasks && s.tasks[k].meta == m
  {
    s := SchedulingStep(INITIAL, InsertTask(a, k, m, once)).value;
  }

  lemma ResponseValidated(s: State, a: nat, b: nat, r: Response) returns (t: State)
    requires a != b && b !in s.pcs
    ensures Next(s, Validate(b, r)) == Some(t)
    ensures At(t, b) == Some(Validated(r)) && At(t, a) == At(s, a) && t.tasks == s.tasks
  {
    t := ResponseStep(s, Validate(b, r)).value;
  }

  /** So a run of six steps from the empty state turns a finished row back. */
  lemma EarlyResponseTurnsBack(a: nat, b: nat, k: Key, m: Meta, once: bool, r: Response)
    requires a != b && KeyAnswered(r) == k && Matches(r, m) && Outcome(r.taskStatus).Some?
    ensures var begun := Exec(INITIAL, [InsertTask(a, k, m, once), Validate(b, r)]);
            begun.Some? &&
            var handled := Exec(begun.value, [Match(b), WriteTask(b), WriteConsignment(b)]);
            handled.Some? && Finished(handled.value, ConsignmentKeyOf(k, m)) &&
            CanTurnBack(handled.value, a, ConsignmentKeyOf(k, m))
  {
    EarlyMatchIsReachable(a, b, k, m, once, r);
    EarlyMatchCanTurnBack(Exec(INITIAL, [InsertTask(a, k, m, once), Validate(b, r)]).value, a, b, r, m);
  }
}
