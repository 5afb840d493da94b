/** What does not last: a terminal status, and a run at its instant; and what does not
    depend on the status: the event a service is sent. */
module StatusHistory {
  import opened Wrappers
  import opened Text
  import opened Protocol
  import opened Safety
  import opened Delivery

  // --- From terminal back to dispatched -----------------------------------------------

  /** The step marks row `k` dispatched. */
  predicate Marks(s: State, l: Label, k: Key) {
    l.Mark? && l.actor in s.pcs && s.pcs[l.actor].Published? && KeyOf(s.pcs[l.actor].msg) == k
  }

  /** The step writes the outcome of a response to row `k`. */
  predicate WritesOutcome(s: State, l: Label, k: Key) {
    l.WriteTask? && l.actor in s.pcs && s.pcs[l.actor].Matched? && KeyAnswered(s.pcs[l.actor].r) == k
  }

  predicate IsTerminal(s: State, k: Key) {
    k in s.tasks && s.tasks[k].status.Terminal()
  }

  predicate IsDispatched(s: State, k: Key) {
    k in s.tasks && s.tasks[k].status == Dispatched
  }

  /** The step puts row `k` in some other state than dispatched or terminal. */
  predicate Renews(l: Label, k: Key) {
    (l.InsertTask? || l.RemoveTask?) && l.key == k
  }

  lemma TerminalAfterStep(s: State, l: Label, k: Key)
    requires Next(s, l).Some? && PcsInv(s)
    ensures IsTerminal(Next(s, l).value, k) <==>
            WritesOutcome(s, l, k) || (IsTerminal(s, k) && !Marks(s, l, k) && !Renews(l, k))
  {
    if l.WriteTask? {
      assert PcInv(s, s.pcs[l.actor]);
    }
  }

  lemma DispatchedAfterStep(s: State, l: Label, k: Key)
    requires Next(s, l).Some? && PcsInv(s)
    ensures IsDispatched(Next(s, l).value, k) <==>
            Marks(s, l, k) || (IsDispatched(s, k) && !WritesOutcome(s, l, k) && !Renews(l, k))
  {
    if l.WriteTask? {
      assert PcInv(s, s.pcs[l.actor]);
    }
  }

  predicate MarksAt(ls: seq<Label>, n: nat, k: Key) {
    n < |ls| && After(ls, n).Some? && Marks(After(ls, n).value, ls[n], k)
  }

  predicate WritesOutcomeAt(ls: seq<Label>, n: nat, k: Key) {
    n < |ls| && After(ls, n).Some? && WritesOutcome(After(ls, n).value, ls[n], k)
  }

  predicate TerminalAt(ls: seq<Label>, n: nat, k: Key) {
    n <= |ls| && After(ls, n).Some? && IsTerminal(After(ls, n).value, k)
  }

  predicate DispatchedAt(ls: seq<Label>, n: nat, k: Key) {
    n <= |ls| && After(ls, n).Some? && IsDispatched(After(ls, n).value, k)
  }

  lemma StepAt(ls: seq<Label>, n: nat)
    requires n < |ls| && Exec(INITIAL, ls).Some?
    ensures After(ls, n).Some? && After(ls, n + 1) == Next(After(ls, n).value, ls[n])
    ensures After(ls, n + 1).Some?
  {
    PrefixRuns(ls, n + 1);
    AfterOneMore(ls, n);
  }

  predicate RenewsAt(ls: seq<Label>, n: nat, k: Key) {
    n < |ls| && Renews(ls[n], k)
  }

  lemma TerminalAtStep(ls: seq<Label>, n: nat, k: Key)
    requires n < |ls| && Exec(INITIAL, ls).Some?
    ensures TerminalAt(ls, n + 1, k) <==>
            WritesOutcomeAt(ls, n, k) || (TerminalAt(ls, n, k) && !MarksAt(ls, n, k) && !RenewsAt(ls, n, k))
  {
    StepAt(ls, n);
    InvAfter(ls[..n], After(ls, n).value);
    TerminalAfterStep(After(ls, n).value, ls[n], k);
  }

  lemma DispatchedAtStep(ls: seq<Label>, n: nat, k: Key)
    requires n < |ls| && Exec(INITIAL, ls).Some?
    ensures DispatchedAt(ls, n + 1, k) <==>
            MarksAt(ls, n, k) || (DispatchedAt(ls, n, k) && !WritesOutcomeAt(ls, n, k) && !RenewsAt(ls, n, k))
  {
    StepAt(ls, n);
    InvAfter(ls[..n], After(ls, n).value);
    DispatchedAfterStep(After(ls, n).value, ls[n], k);
  }

  lemma {:induction false} TerminalWasWritten(ls: seq<Label>, n: nat, k: Key) returns (i: nat)
    requires Exec(INITIAL, ls).Some? && TerminalAt(ls, n, k)
    ensures i < n && WritesOutcomeAt(ls, i, k)
    decreases n
  {
    assert n != 0 by {
      assert ls[..0] == [];
    }
    TerminalAtStep(ls, n - 1, k);
    if WritesOutcomeAt(ls, n - 1, k) {
      i := n - 1;
    } else {
      i := TerminalWasWritten(ls, n - 1, k);
    }
  }

  lemma {:induction false} DispatchedWasMarked(ls: seq<Label>, n: nat, m: nat, k: Key) returns (j: nat)
    requires Exec(INITIAL, ls).Some? && n <= m && !DispatchedAt(ls, n, k) && DispatchedAt(ls, m, k)
    ensures n <= j < m && MarksAt(ls, j, k)
    decreases m
  {
    assert n != m;
    DispatchedAtStep(ls, m - 1, k);
    if MarksAt(ls, m - 1, k) {
      j := m - 1;
    } else {
      j := DispatchedWasMarked(ls, n, m - 1, k);
    }
  }

  /** The row is terminal at some time and dispatched at a later one. */
  ghost predicate FallsBack(ls: seq<Label>, k: Key) {
    exists n: nat, m: nat :: n < m && TerminalAt(ls, n, k) && DispatchedAt(ls, m, k)
  }

  ghost predicate WrittenThenMarked(ls: seq<Label>, k: Key) {
    exists i: nat, j: nat :: i < j && WritesOutcomeAt(ls, i, k) && MarksAt(ls, j, k)
  }

  lemma FallsBackOnlyIf(ls: seq<Label>, n: nat, m: nat, k: Key)
    requires Exec(INITIAL, ls).Some? && n < m && TerminalAt(ls, n, k) && DispatchedAt(ls, m, k)
    ensures WrittenThenMarked(ls, k)
  {
    var i := TerminalWasWritten(ls, n, k);
    var j := DispatchedWasMarked(ls, n, m, k);
    assert i < j && WritesOutcomeAt(ls, i, k) && MarksAt(ls, j, k);
  }

  lemma FallsBackIf(ls: seq<Label>, i: nat, j: nat, k: Key)
    requires Exec(INITIAL, ls).Some? && i < j && WritesOutcomeAt(ls, i, k) && MarksAt(ls, j, k)
    ensures FallsBack(ls, k)
  {
    TerminalAtStep(ls, i, k);
    DispatchedAtStep(ls, j, k);
    assert TerminalAt(ls, i + 1, k) && DispatchedAt(ls, j + 1, k);
  }

  /** Over every run: a task row goes from terminal back to dispatched if and only if it is
      marked for a message after an outcome was written for a response. */
  lemma FallsBackIffMarkedLater(ls: seq<Label>, k: Key)
    requires Exec(INITIAL, ls).Some?
    ensures FallsBack(ls, k) <==> WrittenThenMarked(ls, k)
  {
    if FallsBack(ls, k) {
      var n: nat, m: nat :| n < m && TerminalAt(ls, n, k) && DispatchedAt(ls, m, k);
      FallsBackOnlyIf(ls, n, m, k);
    }
    if WrittenThenMarked(ls, k) {
      var i: nat, j: nat :| i < j && WritesOutcomeAt(ls, i, k) && MarksAt(ls, j, k);
      FallsBackIf(ls, i, j, k);
    }
  }

  /** One more step of a run. */
  lemma OneMore(ls: seq<Label>, s: State, l: Label) returns (more: seq<Label>, t: State)
    requires Exec(INITIAL, ls) == Some(s) && Next(s, l).Some?
    ensures more == ls + [l] && Next(s, l) == Some(t) && Exec(INITIAL, more) == Some(t)
    ensures After(more, |ls|) == Some(s)
  {
    more, t := ls + [l], Next(s, l).value;
    ExecConcat(INITIAL, ls, [l]);
    ExecFirst(s, l, []);
    assert [l] + [] == [l];
    assert more[..|ls|] == ls;
  }

  /** A redelivered or late message: one goroutine has published it and is about to mark its
      task, and another one about to write the outcome. */
  predicate AboutToRace(s: State, a: nat, b: nat, mid: nat, msg: ServiceMessage, r: Response, m: Meta) {
    a != b && At(s, a) == Some(Pc.Published(mid, msg)) && At(s, b) == Some(Matched(r, m)) &&
    KeyOf(msg) == KeyAnswered(r) && msg.deviceId != "" && msg.taskId != "" && Outcome(r.taskStatus).Some?
  }

  /** Then the run can go on so that the row falls back. */
  lemma RaceFallsBack(ls: seq<Label>, s: State, a: nat, b: nat, mid: nat, msg: ServiceMessage, r: Response, m: Meta)
    returns (more: seq<Label>)
    requires Exec(INITIAL, ls) == Some(s) && AboutToRace(s, a, b, mid, msg, r, m)
    ensures Exec(INITIAL, more).Some? && FallsBack(more, KeyOf(msg)) && ls <= more
  {
    var k := KeyOf(msg);
    OutcomeStep(s, a, b, mid, msg, r, m);
    var written, s1 := OneMore(ls, s, WriteTask(b));
    MarkStep(s1, a, mid, msg);
    var marked, s2 := OneMore(written, s1, Mark(a));
    assert marked[..|marked|] == marked;
    more := marked;
    assert TerminalAt(more, |written|, k) && DispatchedAt(more, |marked|, k);
  }

  lemma OutcomeStep(s: State, a: nat, b: nat, mid: nat, msg: ServiceMessage, r: Response, m: Meta)
    requires AboutToRace(s, a, b, mid, msg, r, m)
    ensures Next(s, WriteTask(b)).Some?
    ensures var t := Next(s, WriteTask(b)).value; At(t, a) == At(s, a) && IsTerminal(t, KeyOf(msg))
  {
    assert ResponseStep(s, WriteTask(b)).Some?;
  }

  lemma MarkStep(s: State, a: nat, mid: nat, msg: ServiceMessage)
    requires At(s, a) == Some(Pc.Published(mid, msg)) && msg.deviceId != "" && msg.taskId != ""
    ensures Next(s, Mark(a)).Some? && IsDispatched(Next(s, Mark(a)).value, KeyOf(msg))
  {
    assert DispatchStep(s, Mark(a)).Some?;
  }

  /** The situation is reachable, for every task that runs once and every response that
      agrees with it: the device answers before its task is marked. */
  lemma RaceIsReachable(k: Key, m: Meta, r: Response, mid: nat) returns (ls: seq<Label>, s: State)
    requires KeyAnswered(r) == k && Matches(r, m) && Outcome(r.taskStatus).Some? && k.device != "" && k.task != ""
    ensures Exec(INITIAL, ls) == Some(s) && |ls| == 7
    ensures AboutToRace(s, 1, 2, mid, MessageOf(k, m), r, m)
  {
    var l5, s5 := TaskPublished(k, m, mid);
    ls, s := ResponseMatched(l5, s5, 2, r, m);
  }

  lemma TaskPublished(k: Key, m: Meta, mid: nat) returns (ls: seq<Label>, s: State)
    ensures Exec(INITIAL, ls) == Some(s) && |ls| == 5 && k in s.tasks && s.tasks[k].meta == m
    ensures At(s, 1) == Some(Pc.Published(mid, MessageOf(k, m))) && 2 !in s.pcs
  {
    var l3, s3 := TaskQueued(k, m, mid);
    assert DispatchStep(s3, Receive(1, mid)).Some?;
    var l4, s4 := OneMore(l3, s3, Receive(1, mid));
    assert At(s4, 1) == Some(Received(mid, MessageOf(k, m))) && s4.tasks == s3.tasks && 2 !in s4.pcs;
    assert DispatchStep(s4, Publish(1)).Some?;
    ls, s := OneMore(l4, s4, Publish(1));
  }

  /** A response is received and agrees with its task. */
  lemma ResponseMatched(ls: seq<Label>, s: State, b: nat, r: Response, m: Meta) returns (more: seq<Label>, t: State)
    requires Exec(INITIAL, ls) == Some(s) && b !in s.pcs && Outcome(r.taskStatus).Some? && Matches(r, m)
    requires KeyAnswered(r) in s.tasks && s.tasks[KeyAnswered(r)].meta == m
    ensures Exec(INITIAL, more) == Some(t) && |more| == |ls| + 2
    ensures At(t, b) == Some(Matched(r, m)) && t.writes == s.writes && forall a | a != b :: At(t, a) == At(s, a)
  {
    ValidateStep(s, b, r);
    var l1, s1 := OneMore(ls, s, Validate(b, r));
    MatchStep(s1, b, r, m);
    more, t := OneMore(l1, s1, Match(b));
  }

  lemma ValidateStep(s: State, b: nat, r: Response)
    requires b !in s.pcs
    ensures Next(s, Validate(b, r)).Some?
    ensures var t := Next(s, Validate(b, r)).value;
            At(t, b) == Some(Validated(r)) && t.tasks == s.tasks && t.writes == s.writes &&
            forall a | a != b :: At(t, a) == At(s, a)
  {
    assert ResponseStep(s, Validate(b, r)).Some?;
  }

  lemma MatchStep(s: State, b: nat, r: Response, m: Meta)
    requires At(s, b) == Some(Validated(r)) && Outcome(r.taskStatus).Some? && Matches(r, m)
    requires KeyAnswered(r) in s.tasks && s.tasks[KeyAnswered(r)].meta == m
    ensures Next(s, Match(b)).Some?
    ensures var t := Next(s, Match(b)).value;
            At(t, b) == Some(Matched(r, m)) && t.writes == s.writes && forall a | a != b :: At(t, a) == At(s, a)
  {
    assert ResponseStep(s, Match(b)).Some?;
  }

  lemma TaskQueued(k: Key, m: Meta, mid: nat) returns (ls: seq<Label>, s: State)
    ensures Exec(INITIAL, ls) == Some(s) && |ls| == 3 && s.pcs == map[]
    ensures k in s.tasks && s.tasks[k].meta == m
    ensures mid in s.queue && s.queue[mid] == Entry(Encoded(MessageOf(k, m)), true)
  {
    assert SchedulingStep(INITIAL, InsertTask(0, k, m, true)).Some?;
    var l1, s1 := OneMore([], INITIAL, InsertTask(0, k, m, true));
    assert At(s1, 0) == Some(TaskStored(k, m, true));
    assert SchedulingStep(s1, InsertConsignment(0)).Some?;
    var l2, s2 := OneMore(l1, s1, InsertConsignment(0));
    assert At(s2, 0) == Some(ConsignmentStored(k, m, true));
    assert SchedulingStep(s2, Enqueue(0, mid)).Some?;
    ls, s := OneMore(l2, s2, Enqueue(0, mid));
  }

  /** So nine steps from the empty state take a row from terminal back to dispatched. */
  lemma TerminalIsNotForEver(k: Key, m: Meta, r: Response, mid: nat) returns (ls: seq<Label>)
    requires KeyAnswered(r) == k && Matches(r, m) && Outcome(r.taskStatus).Some? && k.device != "" && k.task != ""
    ensures Exec(INITIAL, ls).Some? && FallsBack(ls, k)
  {
    var before, s := RaceIsReachable(k, m, r, mid);
    ls := RaceFallsBack(before, s, 1, 2, mid, MessageOf(k, m), r, m);
  }

  // --- A run at its instant -----------------------------------------------------------

  /** The step inserts a run of `k` at `rk`. */
  predicate InsertsRun(s: State, l: Label, rk: RunKey, k: Key) {
    l.InsertRun? && l.runKey == rk && l.actor in s.pcs && s.pcs[l.actor].ConsignmentStored? &&
    s.pcs[l.actor].key == k
  }

  predicate InsertsOtherRun(s: State, l: Label, rk: RunKey, k: Key) {
    l.InsertRun? && l.runKey == rk && !InsertsRun(s, l, rk, k)
  }

  predicate Holds(s: State, rk: RunKey, k: Key) {
    rk in s.runs && s.runs[rk] == k
  }

  lemma HeldAfterStep(s: State, l: Label, rk: RunKey, k: Key)
    requires Next(s, l).Some?
    ensures Holds(Next(s, l).value, rk, k) <==>
            InsertsRun(s, l, rk, k) || (Holds(s, rk, k) && !InsertsOtherRun(s, l, rk, k))
  {
  }

  predicate InsertsRunAt(ls: seq<Label>, n: nat, rk: RunKey, k: Key) {
    n < |ls| && After(ls, n).Some? && InsertsRun(After(ls, n).value, ls[n], rk, k)
  }

  predicate InsertsOtherRunAt(ls: seq<Label>, n: nat, rk: RunKey, k: Key) {
    n < |ls| && After(ls, n).Some? && InsertsOtherRun(After(ls, n).value, ls[n], rk, k)
  }

  predicate HeldAt(ls: seq<Label>, n: nat, rk: RunKey, k: Key) {
    n <= |ls| && After(ls, n).Some? && Holds(After(ls, n).value, rk, k)
  }

  lemma HeldAtStep(ls: seq<Label>, n: nat, rk: RunKey, k: Key)
    requires n < |ls| && Exec(INITIAL, ls).Some?
    ensures HeldAt(ls, n + 1, rk, k) <==>
            InsertsRunAt(ls, n, rk, k) || (HeldAt(ls, n, rk, k) && !InsertsOtherRunAt(ls, n, rk, k))
    ensures !(InsertsRunAt(ls, n, rk, k) && InsertsOtherRunAt(ls, n, rk, k))
  {
    StepAt(ls, n);
    HeldAfterStep(After(ls, n).value, ls[n], rk, k);
  }

  /** Step `i` inserts the run, and none of the steps up to `n` puts another in its place. */
  ghost predicate InsertedAndKept(ls: seq<Label>, i: nat, n: nat, rk: RunKey, k: Key) {
    i < n && InsertsRunAt(ls, i, rk, k) && forall j: nat :: i < j < n ==> !InsertsOtherRunAt(ls, j, rk, k)
  }

  lemma {:induction false} HeldIf(ls: seq<Label>, i: nat, n: nat, rk: RunKey, k: Key)
    requires Exec(INITIAL, ls).Some? && n <= |ls| && InsertedAndKept(ls, i, n, rk, k)
    ensures HeldAt(ls, n, rk, k)
    decreases n
  {
    HeldAtStep(ls, n - 1, rk, k);
    if i < n - 1 {
      HeldIf(ls, i, n - 1, rk, k);
    }
  }

  lemma {:induction false} HeldOnlyIf(ls: seq<Label>, n: nat, rk: RunKey, k: Key) returns (i: nat)
    requires Exec(INITIAL, ls).Some? && HeldAt(ls, n, rk, k)
    ensures InsertedAndKept(ls, i, n, rk, k)
    decreases n
  {
    NothingHeldAtFirst(ls, rk, k);
    HeldAtStep(ls, n - 1, rk, k);
    if InsertsRunAt(ls, n - 1, rk, k) {
      i := n - 1;
    } else {
      i := HeldOnlyIf(ls, n - 1, rk, k);
    }
  }

  lemma NothingHeldAtFirst(ls: seq<Label>, rk: RunKey, k: Key)
    ensures !HeldAt(ls, 0, rk, k)
  {
    assert ls[..0] == [];
  }

  /** Over every run: at any time the table holds a run of `k` at an instant if and only if
      one was inserted there, and none of another task was inserted there since. */
  lemma RunIsHeldIffNotOverwritten(ls: seq<Label>, n: nat, rk: RunKey, k: Key)
    requires Exec(INITIAL, ls).Some? && n <= |ls|
    ensures HeldAt(ls, n, rk, k) <==> exists i: nat :: InsertedAndKept(ls, i, n, rk, k)
  {
    if HeldAt(ls, n, rk, k) {
      var i := HeldOnlyIf(ls, n, rk, k);
    }
    if i: nat :| InsertedAndKept(ls, i, n, rk, k) {
      HeldIf(ls, i, n, rk, k);
    }
  }

  /** One task scheduled to run again and again, from a state without goroutines. */
  lemma TaskScheduled(ls: seq<Label>, s: State, k: Key, m: Meta, rk: RunKey) returns (more: seq<Label>, t: State)
    requires Exec(INITIAL, ls) == Some(s) && s.pcs == map[] && k.task !in s.issued
    ensures Exec(INITIAL, more) == Some(t) && ls <= more
    ensures t.pcs == map[] && t.issued == s.issued + {k.task} && Holds(t, rk, k)
  {
    assert SchedulingStep(s, InsertTask(0, k, m, false)).Some?;
    var l1, s1 := OneMore(ls, s, InsertTask(0, k, m, false));
    assert At(s1, 0) == Some(TaskStored(k, m, false));
    assert SchedulingStep(s1, InsertConsignment(0)).Some?;
    var l2, s2 := OneMore(l1, s1, InsertConsignment(0));
    assert At(s2, 0) == Some(ConsignmentStored(k, m, false));
    assert SchedulingStep(s2, InsertRun(0, rk)).Some?;
    more, t := OneMore(l2, s2, InsertRun(0, rk));
  }

  /** Two tasks scheduled at the same stored instant: only the run of the second is left. */
  lemma RunIsOverwritten(k1: Key, m1: Meta, k2: Key, m2: Meta, rk: RunKey) returns (ls: seq<Label>, n: nat)
    requires k1.task != k2.task
    ensures Exec(INITIAL, ls).Some? && HeldAt(ls, n, rk, k1)
    ensures HeldAt(ls, |ls|, rk, k2) && !HeldAt(ls, |ls|, rk, k1)
  {
    var l1, s1 := TaskScheduled([], INITIAL, k1, m1, rk);
    var l2, s2 := TaskScheduled(l1, s1, k2, m2, rk);
    ls, n := l2, |l1|;
    assert ls[..n] == l1 && ls[..|ls|] == l2;
  }

  // --- The event does not wait for the status -----------------------------------------

  /** In the steps from `i` to `n`, goroutine `a` has written the outcome of `r`. */
  ghost predicate WroteBetween(ls: seq<Label>, i: nat, n: nat, a: nat, r: Response, m: Meta) {
    exists j: nat :: i < j < n <= |ls| && TookFrom(ls, j, a, Matched(r, m), WriteTask(a))
  }

  /** It has given the update up before any write. */
  ghost predicate GaveUpBetween(ls: seq<Label>, i: nat, n: nat, a: nat, r: Response, m: Meta) {
    exists j: nat :: i < j < n <= |ls| && TookFrom(ls, j, a, Matched(r, m), GiveUp(a))
  }

  /** What the steps since the match have been, at each stage of the handling. */
  ghost predicate Tells(ls: seq<Label>, i: nat, n: nat, a: nat, pc: Pc, r: Response, m: Meta) {
    var wrote, gaveUp := WroteBetween(ls, i, n, a, r, m), GaveUpBetween(ls, i, n, a, r, m);
    (pc == Matched(r, m) && !wrote && !gaveUp) ||
    (pc == TaskWritten(r, m) && wrote && !gaveUp) ||
    (pc == Settled(r, m) && (wrote <==> !gaveUp))
  }

  /** The stage a step of `a` leads into, and the stage it is taken from. */
  predicate Follows(from: Pc, l: Label, a: nat, to: Pc, r: Response, m: Meta) {
    (from == Validated(r) && l == Match(a) && to == Matched(r, m)) ||
    (from == Matched(r, m) && l == WriteTask(a) && to == TaskWritten(r, m)) ||
    (from == Matched(r, m) && l == GiveUp(a) && to == Settled(r, m)) ||
    (from == TaskWritten(r, m) && (l == WriteConsignment(a) || l == GiveUp(a)) && to == Settled(r, m))
  }

  predicate Answering(pc: Pc, r: Response, m: Meta) {
    pc == Matched(r, m) || pc == TaskWritten(r, m) || pc == Settled(r, m)
  }

  lemma FollowsOneStep(s: State, l: Label, a: nat, to: Pc, r: Response, m: Meta)
    requires Next(s, l).Some? && IsBy(l, a) && At(Next(s, l).value, a) == Some(to) && Answering(to, r, m)
    ensures At(s, a).Some? && Follows(At(s, a).value, l, a, to, r, m)
  {
  }

  lemma TellsUnmoved(ls: seq<Label>, i: nat, n: nat, a: nat, pc: Pc, r: Response, m: Meta)
    requires n < |ls| && !IsBy(ls[n], a) && Tells(ls, i, n, a, pc, r, m)
    ensures Tells(ls, i, n + 1, a, pc, r, m)
  {
    forall j: nat | i < j < n + 1
      ensures TookFrom(ls, j, a, Matched(r, m), WriteTask(a)) ==> j < n
      ensures TookFrom(ls, j, a, Matched(r, m), GiveUp(a)) ==> j < n
    {
    }
    if WroteBetween(ls, i, n, a, r, m) {
      var j: nat :| i < j < n <= |ls| && TookFrom(ls, j, a, Matched(r, m), WriteTask(a));
      assert i < j < n + 1 <= |ls|;
    }
    if GaveUpBetween(ls, i, n, a, r, m) {
      var j: nat :| i < j < n <= |ls| && TookFrom(ls, j, a, Matched(r, m), GiveUp(a));
      assert i < j < n + 1 <= |ls|;
    }
  }

  lemma TellsMoved(ls: seq<Label>, i: nat, n: nat, a: nat, from: Pc, to: Pc, r: Response, m: Meta)
    requires n < |ls| && i < n && TookFrom(ls, n, a, from, ls[n]) && Tells(ls, i, n, a, from, r, m)
    requires Follows(from, ls[n], a, to, r, m) && Answering(from, r, m)
    ensures Tells(ls, i, n + 1, a, to, r, m)
  {
    BetweenOneMore(ls, i, n, a, r, m);
  }

  lemma BetweenOneMore(ls: seq<Label>, i: nat, n: nat, a: nat, r: Response, m: Meta)
    requires i < n < |ls|
    ensures WroteBetween(ls, i, n + 1, a, r, m) <==>
            WroteBetween(ls, i, n, a, r, m) || TookFrom(ls, n, a, Matched(r, m), WriteTask(a))
    ensures GaveUpBetween(ls, i, n + 1, a, r, m) <==>
            GaveUpBetween(ls, i, n, a, r, m) || TookFrom(ls, n, a, Matched(r, m), GiveUp(a))
  {
  }

  lemma {:induction false} HandlingTells(ls: seq<Label>, n: nat, a: nat, pc: Pc, r: Response, m: Meta)
    returns (i: nat)
    requires Exec(INITIAL, ls).Some? && n <= |ls|
    requires After(ls, n).Some? && At(After(ls, n).value, a) == Some(pc) && Answering(pc, r, m)
    ensures i < n && TookFrom(ls, i, a, Validated(r), Match(a)) && Tells(ls, i, n, a, pc, r, m)
    decreases n
  {
    assert n != 0 by {
      assert ls[..0] == [];
    }
    StepAt(ls, n - 1);
    var s := After(ls, n - 1).value;
    if IsBy(ls[n - 1], a) {
      FollowsOneStep(s, ls[n - 1], a, pc, r, m);
      var from := At(s, a).value;
      if from.Validated? {
        i := n - 1;
      } else {
        i := HandlingTells(ls, n - 1, a, from, r, m);
        TellsMoved(ls, i, n - 1, a, from, pc, r, m);
      }
    } else {
      OthersLeavePcOnce(s, ls[n - 1], a);
      i := HandlingTells(ls, n - 1, a, pc, r, m);
      TellsUnmoved(ls, i, n - 1, a, pc, r, m);
    }
  }

  /** Over every run: when an event is forwarded for a response, the handling that forwards it
      has left the status of the task unwritten if and only if it gave the update up right
      after the match. Nothing else is asked of the writes. */
  lemma ForwardedUnwrittenIffGivenUp(ls: seq<Label>, n: nat, a: nat, r: Response, m: Meta, queueTopic: string)
    returns (i: nat)
    requires Exec(INITIAL, ls).Some? && n < |ls| && TookFrom(ls, n, a, Settled(r, m), Forward(a, queueTopic))
    ensures i < n && TookFrom(ls, i, a, Validated(r), Match(a))
    ensures !WroteBetween(ls, i, n, a, r, m) <==> GaveUpBetween(ls, i, n, a, r, m)
  {
    i := HandlingTells(ls, n, a, Settled(r, m), r, m);
  }

  /** And it happens: five steps from the empty state, for every task and every response that
      agrees with it, forward the event while no outcome was ever written for the task. */
  lemma ForwardedWithoutStatus(k: Key, m: Meta, r: Response, queueTopic: string) returns (ls: seq<Label>, s: State)
    requires KeyAnswered(r) == k && Matches(r, m) && Outcome(r.taskStatus).Some?
    ensures Exec(INITIAL, ls) == Some(s) && |ls| == 5
    ensures EventFor(r, m, queueTopic) in s.forwarded && s.writes == {(k, Queued)}
  {
    assert SchedulingStep(INITIAL, InsertTask(0, k, m, true)).Some?;
    var l1, s1 := OneMore([], INITIAL, InsertTask(0, k, m, true));
    assert k in s1.tasks && s1.tasks[k].meta == m && 1 !in s1.pcs && s1.writes == {(k, Queued)};
    var l3, s3 := ResponseMatched(l1, s1, 1, r, m);
    GiveUpStep(s3, 1, r, m);
    var l4, s4 := OneMore(l3, s3, GiveUp(1));
    ForwardStep(s4, 1, r, m, queueTopic);
    ls, s := OneMore(l4, s4, Forward(1, queueTopic));
  }

  lemma GiveUpStep(s: State, b: nat, r: Response, m: Meta)
    requires At(s, b) == Some(Matched(r, m))
    ensures Next(s, GiveUp(b)).Some?
    ensures var t := Next(s, GiveUp(b)).value; At(t, b) == Some(Settled(r, m)) && t.writes == s.writes
  {
    assert ResponseStep(s, GiveUp(b)).Some?;
  }

  lemma ForwardStep(s: State, b: nat, r: Response, m: Meta, queueTopic: string)
    requires At(s, b) == Some(Settled(r, m))
    ensures Next(s, Forward(b, queueTopic)).Some?
    ensures var t := Next(s, Forward(b, queueTopic)).value;
            EventFor(r, m, queueTopic) in t.forwarded && t.writes == s.writes
  {
    assert ResponseStep(s, Forward(b, queueTopic)).Some?;
  }
}
