/** Where every status comes from, and what a response can change. */
module Provenance {
  import opened Wrappers
  import opened Text
  import opened Protocol
  import opened Safety

  // --- Status provenance --------------------------------------------------------------

  /** An authenticated response of the row's own device to this task says `status`, and its
      token agrees with the row, unless the row had been removed and the write for the
      response brought it back without its columns. */
  predicate SaidBy(s: State, k: Key, status: Status, r: Response)
    requires k in s.tasks
  {
    var m := s.tasks[k].meta;
    r in s.responses && r.subject == k.device && r.taskId == k.task && Says(r.taskStatus, status) &&
    ((r.service == m.service && r.tenant == m.tenant) || (k in s.removed && m == NULL_META))
  }

  /** A row holds one of four statuses; dispatched means the task was published before; a
      terminal status means that its own device said so before. */
  lemma StatusProvenance(ls: seq<Label>, s: State, k: Key)
    requires Exec(INITIAL, ls) == Some(s) && k in s.tasks
    ensures s.tasks[k].status in {Queued, Dispatched, Completed, Failed}
    ensures s.tasks[k].status == Dispatched ==>
              exists p :: p in s.published && p.msg.deviceId == k.device && p.msg.taskId == k.task
    ensures s.tasks[k].status.Terminal() ==> exists r :: SaidBy(s, k, s.tasks[k].status, r)
  {
    InvAfter(ls, s);
    var status := s.tasks[k].status;
    assert (k, status) in s.writes;
    assert Justified(s, k, status);
    if status.Terminal() {
      var r :| ReportedBy(s, k, status, r);
      var m :| SeenMeta(s, k, m) && Matches(r, m);
      OutcomeIffSays(r.taskStatus, status);
      assert SaidBy(s, k, status, r);
    }
  }

  /** As long as nobody removes the row, the agreement with the row is exact. */
  lemma UnremovedRowsAgree(ls: seq<Label>, s: State, k: Key)
    requires Exec(INITIAL, ls) == Some(s) && k in s.tasks && k !in s.removed
    requires s.tasks[k].status.Terminal()
    ensures exists r :: r in s.responses && r.subject == k.device && r.taskId == k.task &&
                        Says(r.taskStatus, s.tasks[k].status) &&
                        r.service == s.tasks[k].meta.service && r.tenant == s.tasks[k].meta.tenant
  {
    StatusProvenance(ls, s, k);
  }

  /** Some response of the row's own device reported this outcome, with a token that agrees
      with the row as it now is. */
  ghost predicate AgreesNow(s: State, k: Key)
    requires k in s.tasks
  {
    exists r :: r in s.responses && r.subject == k.device && r.taskId == k.task &&
                Says(r.taskStatus, s.tasks[k].status) && Matches(r, s.tasks[k].meta)
  }

  /** While tokens name a service or a tenant, a terminal status agrees with the row exactly
      when the row is one that CreateTask inserted and nobody removed. */
  lemma AgreesIffCreatedAndKept(ls: seq<Label>, s: State, k: Key)
    requires Exec(INITIAL, ls) == Some(s) && k in s.tasks && s.tasks[k].status.Terminal()
    requires forall r | r in s.responses :: !Matches(r, NULL_META)
    ensures AgreesNow(s, k) <==> k in s.created && k !in s.removed
  {
    InvAfter(ls, s);
    StatusProvenance(ls, s, k);
    if k in s.created && k !in s.removed {
      UnremovedRowsAgree(ls, s, k);
    } else {
      assert s.tasks[k].meta == NULL_META;
    }
  }

  /** Removing a row between the read and the write of a response handler does break the
      agreement: the update brings the row back without a service and a tenant. */
  lemma RemovalBreaksAgreement(s: State, a: nat, r: Response, m: Meta)
    requires At(s, a) == Some(Matched(r, m)) && Outcome(r.taskStatus).Some?
    requires forall q | q in s.responses :: q.service != ""
    ensures var run := Exec(s, [RemoveTask(KeyAnswered(r)), WriteTask(a)]);
            run.Some? && KeyAnswered(r) in run.value.tasks &&
            run.value.tasks[KeyAnswered(r)].status.Terminal() &&
            forall q | q in run.value.responses :: !Matches(q, run.value.tasks[KeyAnswered(r)].meta)
  {
    var remove, write := RemoveTask(KeyAnswered(r)), WriteTask(a);
    var t := Next(s, remove).value;
    assert [remove, write][1..] == [write];
    assert Next(t, write).Some?;
    assert Exec(t, [write]) == Exec(Next(t, write).value, []);
  }

  /** The situation is reachable: a row just created, and a response that agrees with it. */
  lemma RemovalRaceIsReachable(k: Key, m: Meta, r: Response)
    requires KeyAnswered(r) == k && Matches(r, m) && Outcome(r.taskStatus).Some? && r.service != ""
    ensures var run := Exec(INITIAL, [InsertTask(0, k, m, true), Validate(1, r), Match(1)]);
            run.Some? && At(run.value, 1) == Some(Matched(r, m)) && run.value.responses == {r}
  {
    var l1, l2, l3 := InsertTask(0, k, m, true), Validate(1, r), Match(1);
    var s1 := Created(k, m);
    var s2 := Answered(s1, r);
    assert At(s2, 1) == Some(Validated(r)) && s2.tasks[k].meta == m;
    ThreeSteps(INITIAL, l1, l2, l3);
  }

  lemma Created(k: Key, m: Meta) returns (s: State)
    ensures Next(INITIAL, InsertTask(0, k, m, true)) == Some(s)
    ensures k in s.tasks && s.tasks[k].meta == m && 1 !in s.pcs && s.responses == {}
  {
    s := SchedulingStep(INITIAL, InsertTask(0, k, m, true)).value;
  }

  lemma Answered(s: State, r: Response) returns (t: State)
    requires 1 !in s.pcs
    ensures Next(s, Validate(1, r)) == Some(t)
    ensures At(t, 1) == Some(Validated(r)) && t.tasks == s.tasks && t.responses == s.responses + {r}
  {
    t := ResponseStep(s, Validate(1, r)).value;
  }

  // --- Forwarded events ---------------------------------------------------------------

  /** The event says of whom and for whom the response is, and repeats what it says. */
  predicate TellsOf(e: DeviceEvent, r: Response, m: Meta) {
    e.deviceId == r.subject && e.taskId == r.taskId && e.consignmentId == m.consignment &&
    e.serviceId == r.service == m.service && e.tenantId == r.tenant == m.tenant &&
    e.taskStatus == r.taskStatus && e.messageId == r.messageId && e.messageType == r.messageType &&
    e.payload == r.payload
  }

  /** A service is only sent the response of a device to one of its own tasks. */
  lemma ForwardsOnlyAgreed(ls: seq<Label>, s: State, e: DeviceEvent)
    requires Exec(INITIAL, ls) == Some(s) && e in s.forwarded
    ensures exists r, m :: r in s.responses && SeenMeta(s, Key(e.deviceId, e.taskId), m) && TellsOf(e, r, m)
  {
    InvAfter(ls, s);
    assert FromResponse(s, e);
    var r, m :| Agreed(s, r, m) && e == EventFor(r, m, e.queueTopic);
    assert r in s.responses && SeenMeta(s, Key(e.deviceId, e.taskId), m) && TellsOf(e, r, m);
  }

  // --- Isolation ----------------------------------------------------------------------

  /** The step writes or removes task row `k`. */
  predicate Touches(s: State, l: Label, k: Key) {
    match l
    case InsertTask(_, key, _, _) => key == k
    case RemoveTask(key) => key == k
    case Mark(a) => a in s.pcs && s.pcs[a].Published? && KeyOf(s.pcs[a].msg) == k
    case WriteTask(a) => a in s.pcs && s.pcs[a].Matched? && KeyAnswered(s.pcs[a].r) == k
    case _ => false
  }

  predicate SameRow(s: State, t: State, k: Key) {
    (k in s.tasks <==> k in t.tasks) && (k in s.tasks ==> s.tasks[k] == t.tasks[k])
  }

  lemma UntouchedRowStays(s: State, l: Label, k: Key)
    requires Next(s, l).Some? && !Touches(s, l, k)
    ensures SameRow(s, Next(s, l).value, k)
  {
  }

  /** Whenever a run changes a row, one of its steps created that row, removed it, marked it
      for a message naming it, or wrote it for a response of its own device naming it. */
  lemma {:induction false} RowChangeHasCause(s: State, ls: seq<Label>, t: State, k: Key)
    requires Exec(s, ls) == Some(t) && !SameRow(s, t, k)
    ensures exists i :: 0 <= i < |ls| && Exec(s, ls[..i]).Some? && Touches(Exec(s, ls[..i]).value, ls[i], k)
    decreases ls
  {
    assert ls != [];
    assert ls[..0] == [];
    if Touches(s, ls[0], k) {
      assert Exec(s, ls[..0]) == Some(s);
    } else {
      UntouchedRowStays(s, ls[0], k);
      var u := Next(s, ls[0]).value;
      RowChangeHasCause(u, ls[1..], t, k);
      var i :| 0 <= i < |ls[1..]| && Exec(u, ls[1..][..i]).Some? && Touches(Exec(u, ls[1..][..i]).value, ls[1..][i], k);
      ExecOfTail(s, ls, i);
    }
  }

  /** The step inserts or writes consignment row `ck`. */
  predicate TouchesConsignment(s: State, l: Label, ck: ConsignmentKey) {
    Inserts(s, l, ck) || Settles(s, l, ck)
  }

  predicate SameConsignment(s: State, t: State, ck: ConsignmentKey) {
    (ck in s.consignments <==> ck in t.consignments) &&
    (ck in s.consignments ==> s.consignments[ck] == t.consignments[ck])
  }

  lemma UntouchedConsignmentStays(s: State, l: Label, ck: ConsignmentKey)
    requires Next(s, l).Some? && !TouchesConsignment(s, l, ck)
    ensures SameConsignment(s, Next(s, l).value, ck)
  {
  }

  /** Step `i` of the run inserts or writes `ck`, in a state that has the invariant: so an
      insert is for a task created with that consignment, and a write is for a response
      that agreed with its task. */
  ghost predicate CausesAt(s: State, ls: seq<Label>, i: nat, ck: ConsignmentKey) {
    i < |ls| && Exec(s, ls[..i]).Some? && Causes(Exec(s, ls[..i]).value, ls[i], ck)
  }

  ghost predicate Causes(s: State, l: Label, ck: ConsignmentKey) {
    Inv(s) && TouchesConsignment(s, l, ck)
  }

  lemma CausesShifts(s: State, ls: seq<Label>, i: nat, ck: ConsignmentKey)
    requires ls != [] && Next(s, ls[0]).Some? && CausesAt(Next(s, ls[0]).value, ls[1..], i, ck)
    ensures CausesAt(s, ls, i + 1, ck)
  {
    ExecOfTail(s, ls, i);
  }

  /** Whenever a run changes a consignment row, one of its steps is the insert for that
      task's own creation, or a write for a response to that task. */
  lemma {:induction false} ConsignmentChangeHasCause(s: State, ls: seq<Label>, t: State, ck: ConsignmentKey)
    requires Inv(s) && Exec(s, ls) == Some(t) && !SameConsignment(s, t, ck)
    ensures exists i :: CausesAt(s, ls, i, ck)
    decreases ls
  {
    assert ls != [];
    assert ls[..0] == [];
    if TouchesConsignment(s, ls[0], ck) {
      assert Exec(s, ls[..0]) == Some(s) && Causes(s, ls[0], ck);
      assert CausesAt(s, ls, 0, ck);
    } else {
      UntouchedConsignmentStays(s, ls[0], ck);
      StepKeepsInv(s, ls[0]);
      var u := Next(s, ls[0]).value;
      ConsignmentChangeHasCause(u, ls[1..], t, ck);
      var i :| CausesAt(u, ls[1..], i, ck);
      CausesShifts(s, ls, i, ck);
    }
  }

  lemma ExecOfTail(s: State, ls: seq<Label>, i: nat)
    requires i + 1 < |ls| && Next(s, ls[0]).Some?
    ensures Exec(s, ls[..i + 1]) == Exec(Next(s, ls[0]).value, ls[1..][..i])
    ensures ls[1..][i] == ls[i + 1]
  {
    assert ls[..i + 1][1..] == ls[1..][..i] && ls[..i + 1][0] == ls[0];
  }

  /** From `s` to `t`, nothing has changed but the status of the row that `r` answers for and
      the consignment row of that task as `m` describes it, and the latter only if the token
      of `r` agrees with `m`, which was read of that row. */
  ghost predicate Isolated(s: State, t: State, r: Response, m: Meta) {
    var k := KeyAnswered(r);
    (forall x | x != k :: SameRow(s, t, x)) &&
    (k in s.tasks ==> k in t.tasks && t.tasks[k].meta == s.tasks[k].meta) &&
    (forall ck | ck != ConsignmentKeyOf(k, m) :: SameConsignment(s, t, ck)) &&
    (t.consignments != s.consignments ==> Agreed(s, r, m)) &&
    t.queue == s.queue && t.runs == s.runs && t.accepted == s.accepted &&
    t.published == s.published && t.created == s.created && t.removed == s.removed
  }

  /** A step of handling a response, after its token has been validated. */
  predicate IsHandling(l: Label) {
    (IsResponse(l) && !l.Validate?) || l.Abandon?
  }

  /** Goroutine `a` has read `m` in the handling of `r`, or is through with it. */
  predicate HasRead(s: State, a: nat, r: Response, m: Meta) {
    match At(s, a)
    case None => true
    case Some(pc) => CarriesResponse(pc) && pc.r == r && !pc.Validated? && pc.meta == m
  }

  lemma HandlingStepIsolated(s: State, l: Label, a: nat, r: Response, m: Meta)
    requires Next(s, l).Some? && IsBy(l, a) && IsHandling(l) && HasRead(s, a, r, m) && PcsInv(s)
    ensures Isolated(s, Next(s, l).value, r, m) && HasRead(Next(s, l).value, a, r, m)
  {
    if l.WriteTask? {
      WriteTaskIsolated(s, l, a, r, m);
    } else if l.WriteConsignment? {
      assert a in s.pcs && PcInv(s, s.pcs[a]);
      WriteConsignmentIsolated(s, l, a, r, m);
    } else {
      QuietStepIsolated(s, l, a, r, m);
    }
  }

  lemma WriteTaskIsolated(s: State, l: Label, a: nat, r: Response, m: Meta)
    requires l == WriteTask(a) && Next(s, l).Some? && HasRead(s, a, r, m)
    ensures Isolated(s, Next(s, l).value, r, m) && HasRead(Next(s, l).value, a, r, m)
  {
    var u := ResponseStep(s, l).value;
    assert u.consignments == s.consignments;
  }

  lemma WriteConsignmentIsolated(s: State, l: Label, a: nat, r: Response, m: Meta)
    requires l == WriteConsignment(a) && Next(s, l).Some? && HasRead(s, a, r, m) && Agreed(s, r, m)
    ensures Isolated(s, Next(s, l).value, r, m) && HasRead(Next(s, l).value, a, r, m)
  {
    var u := ResponseStep(s, l).value;
    assert u.tasks == s.tasks;
  }

  lemma QuietStepIsolated(s: State, l: Label, a: nat, r: Response, m: Meta)
    requires l.Match? || l.GiveUp? || l.Forward? || l.Abandon?
    requires Next(s, l).Some? && IsBy(l, a) && HasRead(s, a, r, m)
    ensures Isolated(s, Next(s, l).value, r, m) && HasRead(Next(s, l).value, a, r, m)
  {
    var u := Next(s, l).value;
    assert u.tasks == s.tasks && u.consignments == s.consignments;
  }

  /** Before the row is read, a step of the handling changes no table. */
  lemma FirstStepIsolated(s: State, l: Label, a: nat, r: Response, m: Meta)
    requires Next(s, l).Some? && IsBy(l, a) && IsHandling(l) && At(s, a) == Some(Validated(r))
    ensures Isolated(s, Next(s, l).value, r, m)
    ensures var u := Next(s, l).value; At(u, a).None? || exists read :: At(u, a) == Some(Matched(r, read))
  {
  }

  /** The step of `a` at place `n` of a run, if it is one, is isolated. */
  ghost predicate IsolatedAt(s: State, ls: seq<Label>, n: nat, a: nat, r: Response, m: Meta) {
    n < |ls| && IsBy(ls[n], a) ==>
      Exec(s, ls[..n]).Some? && Next(Exec(s, ls[..n]).value, ls[n]).Some? &&
      Isolated(Exec(s, ls[..n]).value, Next(Exec(s, ls[..n]).value, ls[n]).value, r, m)
  }

  lemma IsolatedShifts(s: State, ls: seq<Label>, a: nat, r: Response, m: Meta)
    requires ls != [] && Next(s, ls[0]).Some?
    requires IsBy(ls[0], a) ==> Isolated(s, Next(s, ls[0]).value, r, m)
    requires forall n: nat :: IsolatedAt(Next(s, ls[0]).value, ls[1..], n, a, r, m)
    ensures forall n: nat :: IsolatedAt(s, ls, n, a, r, m)
  {
    forall n: nat ensures IsolatedAt(s, ls, n, a, r, m) {
      if n == 0 {
        assert ls[..0] == [];
      } else if n < |ls| {
        ExecOfTail(s, ls, n - 1);
        assert IsolatedAt(Next(s, ls[0]).value, ls[1..], n - 1, a, r, m);
      }
    }
  }

  lemma {:induction false} IsolatedOnceRead(s: State, ls: seq<Label>, a: nat, r: Response, m: Meta)
    requires Inv(s) && Exec(s, ls).Some? && HasRead(s, a, r, m)
    requires forall l | l in ls && IsBy(l, a) :: IsHandling(l)
    ensures forall n: nat :: IsolatedAt(s, ls, n, a, r, m)
    decreases ls
  {
    if ls != [] {
      assert ls[0] in ls && forall l | l in ls[1..] :: l in ls;
      StepKeepsInv(s, ls[0]);
      if IsBy(ls[0], a) {
        HandlingStepIsolated(s, ls[0], a, r, m);
      } else {
        OthersLeavePcOnce(s, ls[0], a);
      }
      IsolatedOnceRead(Next(s, ls[0]).value, ls[1..], a, r, m);
      IsolatedShifts(s, ls, a, r, m);
    }
  }

  /** However the handling of a response is interleaved with the steps of others, its own
      steps change at most the status of the row keyed by the token's subject and the
      message's task id, and one consignment row: that of this task, as the handler read it. */
  lemma {:induction false} ResponseIsolation(s: State, ls: seq<Label>, a: nat, r: Response) returns (m: Meta)
    requires Inv(s) && Exec(s, ls).Some? && At(s, a) == Some(Validated(r))
    requires forall l | l in ls && IsBy(l, a) :: IsHandling(l)
    ensures forall n: nat :: IsolatedAt(s, ls, n, a, r, m)
    decreases ls
  {
    m := NULL_META;
    if ls != [] {
      assert ls[0] in ls && forall l | l in ls[1..] :: l in ls;
      StepKeepsInv(s, ls[0]);
      var u := Next(s, ls[0]).value;
      if IsBy(ls[0], a) {
        if At(u, a).Some? {
          FirstStepIsolated(s, ls[0], a, r, m);
          m := At(u, a).value.meta;
        }
        FirstStepIsolated(s, ls[0], a, r, m);
        IsolatedOnceRead(u, ls[1..], a, r, m);
      } else {
        OthersLeavePcOnce(s, ls[0], a);
        m := ResponseIsolation(u, ls[1..], a, r);
      }
      IsolatedShifts(s, ls, a, r, m);
    }
  }

  /** While no device token has the broadcast UUID as its subject, a broadcast task is
      never completed or failed. */
  lemma BroadcastNeverFinishes(ls: seq<Label>, s: State, k: Key)
    requires Exec(INITIAL, ls) == Some(s) && k in s.tasks && k.device == BROADCAST_DEVICE_UUID
    requires forall r | r in s.responses :: r.subject != BROADCAST_DEVICE_UUID
    ensures !s.tasks[k].status.Terminal()
  {
    StatusProvenance(ls, s, k);
  }
}
