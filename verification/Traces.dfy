/** What everybody has done, as it happened: the steps of the step system, and between them
    what a goroutine was told, an error or the result of a read. */
module Traces {
  import opened Wrappers
  import opened Text
  import opened Protocol
  import opened Safety

  datatype Operation =
    | ReceiveCall | PublishCall | MarkCall | DeleteCall
    | ReadCall | UpdateTaskCall | UpdateConsignmentCall | ForwardCall
    | InsertTaskCall | InsertConsignmentCall | InsertRunCall | EncodeCall | EnqueueCall | PageCall
    | RemoveCall

  /** What a goroutine was told: that a call failed, or what a read found. */
  datatype Note =
    | CallFailed(call: Operation)
    | NothingVisible
    | SawTask(key: Key, row: Option<Row>)
    | SawRuns(partition: int, runs: map<RunKey, Key>)

  /** Latest entry last. */
  datatype Trace = Start | Then(before: Trace, last: Label) | Noting(before: Trace, actor: nat, note: Note)

  function Labels(t: Trace): seq<Label> {
    match t
    case Start => []
    case Then(before, l) => Labels(before) + [l]
    case Noting(before, _, _) => Labels(before)
  }

  function RunsIn(runs: map<RunKey, Key>, partition: int): map<RunKey, Key> {
    map rk | rk in runs && rk.partition == partition :: runs[rk]
  }

  /** A read finds what is there. */
  predicate IsTrue(s: State, n: Note) {
    match n
    case CallFailed(_) => true
    case NothingVisible => forall m | m in s.queue :: !s.queue[m].visible
    case SawTask(k, row) => row == if k in s.tasks then Some(s.tasks[k]) else None
    case SawRuns(partition, runs) => runs == RunsIn(s.runs, partition)
  }

  /** The state a trace leads to from the empty one, if all its steps are possible and all its
      notes true when they were taken. */
  function Reached(t: Trace): Option<State> {
    match t
    case Start => Some(INITIAL)
    case Then(before, l) => (match Reached(before) case None => None case Some(s) => Next(s, l))
    case Noting(before, _, n) =>
      (match Reached(before) case None => None case Some(s) => if IsTrue(s, n) then Some(s) else None)
  }

  /** The steps and the notes of goroutine `a` in a trace. */
  function OwnTrace(t: Trace, a: nat): Trace {
    match t
    case Start => Start
    case Then(before, l) => if IsBy(l, a) then Then(OwnTrace(before, a), l) else OwnTrace(before, a)
    case Noting(before, b, n) => if b == a then Noting(OwnTrace(before, a), a, n) else OwnTrace(before, a)
  }

  /** Traces are runs. */
  lemma {:induction false} ReachedByExec(t: Trace)
    requires Reached(t).Some?
    ensures Reached(t) == Exec(INITIAL, Labels(t))
  {
    match t
    case Start =>
    case Then(before, l) =>
      ReachedByExec(before);
      ExecConcat(INITIAL, Labels(before), [l]);
      ExecFirst(Reached(before).value, l, []);
      assert [l] + [] == [l];
    case Noting(before, _, _) =>
      ReachedByExec(before);
  }

  /** So everything that holds after every run holds of every state a trace reaches. */
  lemma ReachedKeepsInv(t: Trace)
    requires Reached(t).Some?
    ensures Inv(Reached(t).value)
  {
    ReachedByExec(t);
    InvAfter(Labels(t), Reached(t).value);
  }

  // --- What others do, and what was so ------------------------------------------------

  /** From `t` to `u` only others have done anything. */
  predicate OnlyOthers(t: Trace, u: Trace, a: nat) {
    t == u ||
    (u.Then? && !IsBy(u.last, a) && OnlyOthers(t, u.before, a)) ||
    (u.Noting? && u.actor != a && OnlyOthers(t, u.before, a))
  }

  /** What a goroutine can count on while others move: they leave its own steps, notes and
      stage alone, and forget nothing. */
  lemma {:induction false} OthersInterfere(t: Trace, u: Trace, a: nat)
    requires OnlyOthers(t, u, a) && Reached(u).Some?
    ensures Reached(t).Some?
    ensures OwnTrace(u, a) == OwnTrace(t, a)
    ensures At(Reached(u).value, a) == At(Reached(t).value, a)
    ensures Grows(Reached(t).value, Reached(u).value)
  {
    if t != u {
      OthersInterfere(t, u.before, a);
      if u.Then? {
        var s := Reached(u.before).value;
        OthersLeavePcOnce(s, u.last, a);
        ReachedKeepsInv(u.before);
        StepGrows(s, u.last);
        GrowsTwice(Reached(t).value, s, Reached(u).value);
      }
    }
  }

  lemma GrowsTwice(s: State, t: State, u: State)
    requires Grows(s, t) && Grows(t, u)
    ensures Grows(s, u)
  {
  }

  predicate IsPrefix(u: Trace, t: Trace) {
    u == t || (!t.Start? && IsPrefix(u, t.before))
  }

  function Size(t: Trace): nat {
    if t.Start? then 0 else Size(t.before) + 1
  }

  lemma {:induction false} PrefixIsShorter(u: Trace, t: Trace)
    requires IsPrefix(u, t)
    ensures Size(u) <= Size(t)
  {
    if u != t {
      PrefixIsShorter(u, t.before);
    }
  }

  /** Every note of a goroutine was true at a moment of the whole trace: when the goroutine had
      taken exactly the steps and notes before it. That moment is not before `t0`, if the
      goroutine took the note after `t0`. */
  lemma {:induction false} OwnNoteWasTrue(t0: Trace, t: Trace, a: nat, v: Trace) returns (u: Trace)
    requires Reached(t).Some? && v.Noting? && IsPrefix(v, OwnTrace(t, a))
    requires IsPrefix(t0, t) && IsPrefix(OwnTrace(t0, a), v.before)
    ensures IsPrefix(u, t) && Reached(u).Some? && OwnTrace(u, a) == v.before && IsTrue(Reached(u).value, v.note)
    ensures IsPrefix(t0, u)
  {
    PrefixIsShorter(v, OwnTrace(t, a));
    PrefixIsShorter(OwnTrace(t0, a), v.before);
    var own := (t.Noting? && t.actor == a) || (t.Then? && IsBy(t.last, a));
    if own && v == OwnTrace(t, a) {
      u := t.before;
    } else {
      u := OwnNoteWasTrue(t0, t.before, a, v);
    }
  }

  // --- What own steps have left behind ------------------------------------------------

  lemma {:induction false} PrefixIsTransitive(u: Trace, v: Trace, t: Trace)
    requires IsPrefix(u, v) && IsPrefix(v, t)
    ensures IsPrefix(u, t)
  {
    if v != t {
      PrefixIsTransitive(u, v, t.before);
    }
  }

  /** The state of a trace that ends in a step, before and after it. */
  lemma ReachedStep(t: Trace)
    requires t.Then? && Reached(t).Some?
    ensures Reached(t.before).Some? && Reached(t) == Next(Reached(t.before).value, t.last)
    ensures Grows(Reached(t.before).value, Reached(t).value)
  {
    ReachedKeepsInv(t.before);
    StepGrows(Reached(t.before).value, t.last);
  }

  /** A task that a goroutine inserted was created with these columns. */
  lemma {:induction false} InsertedIsCreated(t: Trace, a: nat, v: Trace, k: Key, m: Meta, once: bool)
    requires Reached(t).Some? && v.Then? && v.last == InsertTask(a, k, m, once) && IsPrefix(v, OwnTrace(t, a))
    ensures k in Reached(t).value.created && Reached(t).value.created[k] == m
  {
    if t.Then? {
      ReachedStep(t);
    }
    if t.Noting? || !IsBy(t.last, a) || v != OwnTrace(t, a) {
      InsertedIsCreated(t.before, a, v, k, m, once);
    }
  }

  lemma {:induction false} StageOfTask(t: Trace, a: nat, x: Trace, k: Key, m: Meta, once: bool)
    requires Reached(t).Some? && OwnTrace(t, a) == Then(x, InsertTask(a, k, m, once))
    ensures At(Reached(t).value, a) == Some(TaskStored(k, m, once))
  {
    if t.Noting? || !IsBy(t.last, a) {
      StageOfTask(t.before, a, x, k, m, once);
      if t.Then? {
        OthersLeavePcOnce(Reached(t.before).value, t.last, a);
      }
    }
  }

  lemma {:induction false} StageOfConsignment(t: Trace, a: nat, x: Trace, k: Key, m: Meta, once: bool)
    requires Reached(t).Some?
    requires OwnTrace(t, a) == Then(Then(x, InsertTask(a, k, m, once)), InsertConsignment(a))
    ensures At(Reached(t).value, a) == Some(ConsignmentStored(k, m, once))
  {
    if t.Noting? || !IsBy(t.last, a) {
      StageOfConsignment(t.before, a, x, k, m, once);
      if t.Then? {
        OthersLeavePcOnce(Reached(t.before).value, t.last, a);
      }
    } else {
      StageOfTask(t.before, a, x, k, m, once);
    }
  }

  /** A message that a goroutine queued for its new task carries that task. */
  lemma {:induction false} EnqueuedIsAccepted(t: Trace, a: nat, x: Trace, k: Key, m: Meta, once: bool, mid: nat)
    requires Reached(t).Some?
    requires IsPrefix(Then(Then(Then(x, InsertTask(a, k, m, once)), InsertConsignment(a)), Enqueue(a, mid)),
                      OwnTrace(t, a))
    ensures mid in Reached(t).value.accepted && Reached(t).value.accepted[mid] == Encoded(MessageOf(k, m))
  {
    var v := Then(Then(Then(x, InsertTask(a, k, m, once)), InsertConsignment(a)), Enqueue(a, mid));
    if t.Then? {
      ReachedStep(t);
    }
    if t.Noting? || !IsBy(t.last, a) || v != OwnTrace(t, a) {
      EnqueuedIsAccepted(t.before, a, x, k, m, once, mid);
    } else {
      StageOfConsignment(t.before, a, x, k, m, once);
    }
  }

  lemma {:induction false} StageOfRun(t: Trace, a: nat, x: Trace, k: Key) returns (m: Meta)
    requires Reached(t).Some? && OwnTrace(t, a) == Then(x, ReadRun(a, k))
    ensures At(Reached(t).value, a) == Some(RunFound(k, m)) && k in Reached(t).value.scheduled
  {
    if t.Noting? || !IsBy(t.last, a) {
      m := StageOfRun(t.before, a, x, k);
      if t.Then? {
        OthersLeavePcOnce(Reached(t.before).value, t.last, a);
        ReachedStep(t);
      }
    } else {
      m := Reached(t.before).value.tasks[k].meta;
    }
  }

  /** A message that a goroutine queued for a due run carries the task of the run, as it was
      created, unless its row was removed. */
  lemma {:induction false} RunIsAccepted(t: Trace, a: nat, x: Trace, k: Key, mid: nat) returns (m: Meta)
    requires Reached(t).Some? && IsPrefix(Then(Then(x, ReadRun(a, k)), Enqueue(a, mid)), OwnTrace(t, a))
    ensures mid in Reached(t).value.accepted && Reached(t).value.accepted[mid] == Encoded(MessageOf(k, m))
    ensures k in Reached(t).value.created && (m == Reached(t).value.created[k] || k in Reached(t).value.removed)
  {
    var v := Then(Then(x, ReadRun(a, k)), Enqueue(a, mid));
    if t.Then? {
      ReachedStep(t);
    }
    if t.Noting? || !IsBy(t.last, a) || v != OwnTrace(t, a) {
      m := RunIsAccepted(t.before, a, x, k, mid);
    } else {
      m := StageOfRun(t.before, a, x, k);
      ReachedKeepsInv(t.before);
      assert PcInv(Reached(t.before).value, RunFound(k, m));
    }
  }

  // --- One call -----------------------------------------------------------------------

  /** `t`, and then a call for step `l`: it may have had its effect or not, and reported
      success or an error. */
  function AfterCall(t: Trace, a: nat, l: Label, call: Operation, ok: bool, done: bool): Trace {
    var u := if done then Then(t, l) else t;
    if ok then u else Noting(u, a, CallFailed(call))
  }

  /** The same for the last call of a goroutine, which stops if it had no effect. */
  function AfterLastCall(t: Trace, a: nat, l: Label, call: Operation, ok: bool, done: bool): Trace {
    var u := AfterCall(t, a, l, call, ok, done);
    if done then u else Then(u, Abandon(a))
  }
}
