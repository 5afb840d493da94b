/** What every run of the protocol keeps, whatever the interleaving and the failures. */
module Safety {
  import opened Wrappers
  import opened Text
  import opened Protocol

  // --- The invariant ------------------------------------------------------------------

  /** The queue holds what it accepted. */
  predicate QueueInv(s: State) {
    forall m | m in s.queue :: m in s.accepted && s.queue[m].body == s.accepted[m]
  }

  predicate WasPublished(s: State, msg: ServiceMessage) {
    PublicationOf(msg) in s.published
  }

  predicate WasMarked(s: State, msg: ServiceMessage) {
    (KeyOf(msg), Dispatched) in s.writes
  }

  /** A message off the queue was published to its own topic and its task was marked. */
  predicate DeliveryInv(s: State) {
    forall m | m in s.accepted && s.accepted[m].Encoded? ::
      m in s.queue || (WasPublished(s, s.accepted[m].msg) && WasMarked(s, s.accepted[m].msg))
  }

  predicate AcceptedSomewhere(s: State, msg: ServiceMessage) {
    exists m :: m in s.accepted && s.accepted[m] == Encoded(msg)
  }

  /** Nothing is published but accepted messages, to the topic of their own device. */
  predicate PublishedInv(s: State) {
    forall p | p in s.published :: p == PublicationOf(p.msg) && AcceptedSomewhere(s, p.msg)
  }

  /** `m` is what a reader of row `k` can have seen: what CreateTask wrote, or nulls once
      the row had been removed (or where no row was ever created). */
  predicate SeenMeta(s: State, k: Key, m: Meta) {
    k.task in s.issued &&
    ((k in s.created && m == s.created[k]) || (m == NULL_META && (k in s.removed || k !in s.created)))
  }

  /** The token of `r` agreed with a row `k` as some reader saw it. */
  ghost predicate AgreedWithRow(s: State, k: Key, r: Response) {
    exists m :: SeenMeta(s, k, m) && Matches(r, m)
  }

  ghost predicate ReportedBy(s: State, k: Key, status: Status, r: Response) {
    r in s.responses && KeyAnswered(r) == k && Outcome(r.taskStatus) == Some(status) && AgreedWithRow(s, k, r)
  }

  /** Why a status may have been written to row `k`. */
  ghost predicate Justified(s: State, k: Key, status: Status) {
    match status
    case Queued => k in s.created
    case Dispatched => exists p :: p in s.published && KeyOf(p.msg) == k
    case Completed => exists r :: ReportedBy(s, k, Completed, r)
    case Failed => exists r :: ReportedBy(s, k, Failed, r)
    case PendingRetry => false
    case Unknown => false
  }

  ghost predicate WritesInv(s: State) {
    forall w | w in s.writes :: w.0.task in s.issued && Justified(s, w.0, w.1)
  }

  predicate RowsInv(s: State) {
    (forall k | k in s.tasks ::
      (k, s.tasks[k].status) in s.writes &&
      s.tasks[k].meta == (if k in s.created && k !in s.removed then s.created[k] else NULL_META)) &&
    (forall k | k in s.created && k !in s.removed :: k in s.tasks)
  }

  /** Consignment row `ck` was given this status for response `r`, whose token agreed with
      the task row as `m`, after the task row itself had been written with that status. */
  predicate SettledBy(s: State, ck: ConsignmentKey, status: Status, r: Response, m: Meta) {
    Agreed(s, r, m) && Outcome(r.taskStatus) == Some(status) &&
    ConsignmentKeyOf(KeyAnswered(r), m) == ck && (KeyAnswered(r), status) in s.writes
  }

  ghost predicate SettledBySome(s: State, ck: ConsignmentKey, status: Status) {
    exists r, m :: SettledBy(s, ck, status, r, m)
  }

  /** A consignment row never runs ahead of its task row. */
  ghost predicate ConsignmentsInv(s: State) {
    forall ck | ck in s.consignments ::
      s.consignments[ck] == Queued || SettledBySome(s, ck, s.consignments[ck])
  }

  predicate IssuedInv(s: State) {
    (forall k | k in s.created :: k.task in s.issued) &&
    (forall m | m in s.accepted && s.accepted[m].Encoded? :: s.accepted[m].msg.taskId in s.issued) &&
    (forall k | k in s.scheduled :: k in s.created) &&
    (forall rk | rk in s.runs :: s.runs[rk] in s.scheduled) &&
    (forall k | k in s.removed :: k.task in s.issued)
  }

  /** Every event a service was sent comes from an authenticated response that agreed
      with the row it names. */
  ghost predicate FromResponse(s: State, e: DeviceEvent) {
    exists r, m :: Agreed(s, r, m) && e == EventFor(r, m, e.queueTopic)
  }

  ghost predicate ForwardedInv(s: State) {
    forall e | e in s.forwarded :: FromResponse(s, e)
  }

  /** What a goroutine carries is true, and stays true whatever the others do. */
  ghost predicate PcInv(s: State, pc: Pc) {
    match pc
    case TaskStored(k, m, _) => k in s.created && s.created[k] == m
    case ConsignmentStored(k, m, _) => k in s.created && s.created[k] == m
    case RunFound(k, m) => SeenMeta(s, k, m)
    case Received(mid, msg) => mid in s.accepted && s.accepted[mid] == Encoded(msg)
    case ReceivedGarbage(mid) => mid in s.accepted && s.accepted[mid].Garbage?
    case Published(mid, msg) =>
      mid in s.accepted && s.accepted[mid] == Encoded(msg) && WasPublished(s, msg)
    case Marked(mid, msg) =>
      mid in s.accepted && s.accepted[mid] == Encoded(msg) && WasPublished(s, msg) && WasMarked(s, msg)
    case Validated(r) => r in s.responses
    case Matched(r, m) => Agreed(s, r, m)
    case TaskWritten(r, m) => Agreed(s, r, m) && (KeyAnswered(r), Outcome(r.taskStatus).value) in s.writes
    case Settled(r, m) => Agreed(s, r, m)
  }

  predicate Agreed(s: State, r: Response, m: Meta) {
    r in s.responses && Matches(r, m) && SeenMeta(s, KeyAnswered(r), m) && Outcome(r.taskStatus).Some?
  }

  ghost predicate PcsInv(s: State) {
    forall a | a in s.pcs :: PcInv(s, s.pcs[a])
  }

  ghost predicate Inv(s: State) {
    QueueInv(s) && DeliveryInv(s) && PublishedInv(s) && WritesInv(s) && RowsInv(s) &&
    ConsignmentsInv(s) && IssuedInv(s) && ForwardedInv(s) && PcsInv(s)
  }

  // --- Steps on a consignment row -----------------------------------------------------

  /** The step inserts consignment row `ck`. */
  predicate Inserts(s: State, l: Label, ck: ConsignmentKey) {
    l.InsertConsignment? && l.actor in s.pcs && s.pcs[l.actor].TaskStored? &&
    ConsignmentKeyOf(s.pcs[l.actor].key, s.pcs[l.actor].meta) == ck
  }

  /** The step writes the outcome of a response to consignment row `ck`. */
  predicate Settles(s: State, l: Label, ck: ConsignmentKey) {
    l.WriteConsignment? && l.actor in s.pcs && s.pcs[l.actor].TaskWritten? &&
    ConsignmentKeyOf(KeyAnswered(s.pcs[l.actor].r), s.pcs[l.actor].meta) == ck
  }

  // --- Histories only grow ------------------------------------------------------------

  predicate Grows(s: State, t: State) {
    (forall m | m in s.accepted :: m in t.accepted && t.accepted[m] == s.accepted[m]) &&
    s.published <= t.published && s.writes <= t.writes && s.responses <= t.responses &&
    (forall k | k in s.created :: k in t.created && t.created[k] == s.created[k]) &&
    (forall k | k in t.created && k !in s.created :: k.task !in s.issued) &&
    s.removed <= t.removed && s.issued <= t.issued && s.scheduled <= t.scheduled
  }

  lemma SchedulingGrows(s: State, l: Label)
    requires IsScheduling(l) && SchedulingStep(s, l).Some? && IssuedInv(s)
    ensures Grows(s, SchedulingStep(s, l).value)
  {
  }

  lemma DispatchGrows(s: State, l: Label)
    requires IsDispatch(l) && DispatchStep(s, l).Some?
    ensures Grows(s, DispatchStep(s, l).value)
  {
  }

  lemma ResponseGrows(s: State, l: Label)
    requires IsResponse(l) && ResponseStep(s, l).Some?
    ensures Grows(s, ResponseStep(s, l).value)
  {
  }

  lemma StepGrows(s: State, l: Label)
    requires Next(s, l).Some? && IssuedInv(s)
    ensures Grows(s, Next(s, l).value)
  {
    if IsScheduling(l) {
      SchedulingGrows(s, l);
    } else if IsDispatch(l) {
      DispatchGrows(s, l);
    } else if IsResponse(l) {
      ResponseGrows(s, l);
    }
  }

  lemma AcceptedSomewhereGrows(s: State, t: State, msg: ServiceMessage)
    requires Grows(s, t) && AcceptedSomewhere(s, msg)
    ensures AcceptedSomewhere(t, msg)
  {
    var m :| m in s.accepted && s.accepted[m] == Encoded(msg);
    assert m in t.accepted;
  }

  lemma SeenMetaGrows(s: State, t: State, k: Key, m: Meta)
    requires Grows(s, t) && SeenMeta(s, k, m)
    ensures SeenMeta(t, k, m)
  {
  }

  lemma AgreedGrows(s: State, t: State, r: Response, m: Meta)
    requires Grows(s, t) && Agreed(s, r, m)
    ensures Agreed(t, r, m)
  {
    SeenMetaGrows(s, t, KeyAnswered(r), m);
  }

  lemma ReportedByGrows(s: State, t: State, k: Key, status: Status, r: Response)
    requires Grows(s, t) && ReportedBy(s, k, status, r)
    ensures ReportedBy(t, k, status, r)
  {
    var m :| SeenMeta(s, k, m) && Matches(r, m);
    SeenMetaGrows(s, t, k, m);
  }

  lemma JustifiedGrows(s: State, t: State, k: Key, status: Status)
    requires Grows(s, t) && Justified(s, k, status)
    ensures Justified(t, k, status)
  {
    if status.Terminal() {
      var r :| ReportedBy(s, k, status, r);
      ReportedByGrows(s, t, k, status, r);
    }
  }

  lemma PcGrows(s: State, t: State, pc: Pc)
    requires Grows(s, t) && PcInv(s, pc)
    ensures PcInv(t, pc)
  {
    match pc
    case RunFound(k, m) => SeenMetaGrows(s, t, k, m);
    case _ =>
  }

  // --- Every step keeps the invariant -------------------------------------------------

  lemma QueueKept(s: State, l: Label)
    requires Next(s, l).Some? && QueueInv(s)
    ensures QueueInv(Next(s, l).value)
  {
  }

  lemma DeliveryKept(s: State, l: Label)
    requires Next(s, l).Some? && QueueInv(s) && DeliveryInv(s) && PcsInv(s)
    ensures DeliveryInv(Next(s, l).value)
  {
    if l.Delete? {
      assert PcInv(s, s.pcs[l.actor]);
    }
  }

  lemma PublishedKept(s: State, l: Label)
    requires Next(s, l).Some? && PublishedInv(s) && PcsInv(s) && IssuedInv(s)
    ensures PublishedInv(Next(s, l).value)
  {
    var t := Next(s, l).value;
    StepGrows(s, l);
    forall p | p in t.published ensures p == PublicationOf(p.msg) && AcceptedSomewhere(t, p.msg) {
      if p in s.published {
        AcceptedSomewhereGrows(s, t, p.msg);
      } else {
        assert PcInv(s, s.pcs[l.actor]);
        assert AcceptedSomewhere(s, p.msg);
        AcceptedSomewhereGrows(s, t, p.msg);
      }
    }
  }

  lemma WritesKept(s: State, l: Label)
    requires Next(s, l).Some? && WritesInv(s) && PcsInv(s) && IssuedInv(s)
    ensures WritesInv(Next(s, l).value)
  {
    var t := Next(s, l).value;
    StepGrows(s, l);
    forall w | w in t.writes ensures w.0.task in t.issued && Justified(t, w.0, w.1) {
      if w in s.writes {
        JustifiedGrows(s, t, w.0, w.1);
      } else if l.Mark? {
        assert PcInv(s, s.pcs[l.actor]);
        assert PublicationOf(s.pcs[l.actor].msg) in t.published;
      } else if l.WriteTask? {
        var pc := s.pcs[l.actor];
        assert PcInv(s, pc);
        assert AgreedWithRow(s, w.0, pc.r);
        ReportedByGrows(s, t, w.0, w.1, pc.r);
        assert ReportedBy(t, w.0, w.1, pc.r);
      }
    }
  }

  /** A status update, whether or not it finds the row. */
  lemma UpsertKeepsRows(s: State, k: Key, status: Status, t: State)
    requires RowsInv(s)
    requires t.tasks == SetTaskStatus(s.tasks, k, status) && t.writes == s.writes + {(k, status)}
    requires t.created == s.created && t.removed == s.removed
    ensures RowsInv(t)
  {
  }

  lemma InsertKeepsRows(s: State, l: Label)
    requires l.InsertTask? && Next(s, l).Some? && RowsInv(s) && IssuedInv(s)
    ensures RowsInv(Next(s, l).value)
  {
  }

  lemma RemovalKeepsRows(s: State, l: Label)
    requires l.RemoveTask? && RowsInv(s)
    ensures RowsInv(Next(s, l).value)
  {
  }

  lemma RowsKept(s: State, l: Label)
    requires Next(s, l).Some? && RowsInv(s) && IssuedInv(s)
    ensures RowsInv(Next(s, l).value)
  {
    var t := Next(s, l).value;
    if l.InsertTask? {
      InsertKeepsRows(s, l);
    } else if l.RemoveTask? {
      RemovalKeepsRows(s, l);
    } else if l.Mark? {
      UpsertKeepsRows(s, KeyOf(s.pcs[l.actor].msg), Dispatched, t);
    } else if l.WriteTask? {
      var r := s.pcs[l.actor].r;
      UpsertKeepsRows(s, KeyAnswered(r), Outcome(r.taskStatus).value, t);
    } else {
      OtherStepsLeaveRows(s, l);
    }
  }

  lemma OtherStepsLeaveRows(s: State, l: Label)
    requires Next(s, l).Some? && !l.InsertTask? && !l.RemoveTask? && !l.Mark? && !l.WriteTask?
    ensures var t := Next(s, l).value;
            t.tasks == s.tasks && t.writes == s.writes && t.created == s.created && t.removed == s.removed
  {
  }

  lemma ConsignmentsKept(s: State, l: Label)
    requires Next(s, l).Some? && ConsignmentsInv(s) && PcsInv(s) && IssuedInv(s)
    ensures ConsignmentsInv(Next(s, l).value)
  {
    var t := Next(s, l).value;
    StepGrows(s, l);
    if l.InsertConsignment? {
      var pc := s.pcs[l.actor];
      SetConsignmentKeeps(s, t, ConsignmentKeyOf(pc.key, pc.meta), Queued);
    } else if l.WriteConsignment? {
      var pc := s.pcs[l.actor];
      assert PcInv(s, pc);
      SeenMetaGrows(s, t, KeyAnswered(pc.r), pc.meta);
      var ck, status := ConsignmentKeyOf(KeyAnswered(pc.r), pc.meta), Outcome(pc.r.taskStatus).value;
      assert SettledBy(t, ck, status, pc.r, pc.meta);
      SetConsignmentKeeps(s, t, ck, status);
    } else {
      OtherStepsLeaveConsignments(s, l);
      ConsignmentsCarryOver(s, t);
    }
  }

  lemma OtherStepsLeaveConsignments(s: State, l: Label)
    requires Next(s, l).Some? && !l.InsertConsignment? && !l.WriteConsignment?
    ensures Next(s, l).value.consignments == s.consignments
  {
  }

  lemma SettledBySomeGrows(s: State, t: State, ck: ConsignmentKey, status: Status)
    requires Grows(s, t) && SettledBySome(s, ck, status)
    ensures SettledBySome(t, ck, status)
  {
    var r, m :| SettledBy(s, ck, status, r, m);
    SeenMetaGrows(s, t, KeyAnswered(r), m);
    assert SettledBy(t, ck, status, r, m);
  }

  lemma ConsignmentsCarryOver(s: State, t: State)
    requires ConsignmentsInv(s) && Grows(s, t) && t.consignments == s.consignments
    ensures ConsignmentsInv(t)
  {
    forall ck | ck in t.consignments && t.consignments[ck] != Queued
      ensures SettledBySome(t, ck, t.consignments[ck])
    {
      SettledBySomeGrows(s, t, ck, s.consignments[ck]);
    }
  }

  lemma SetConsignmentKeeps(s: State, t: State, ck: ConsignmentKey, status: Status)
    requires ConsignmentsInv(s) && Grows(s, t) && t.consignments == s.consignments[ck := status]
    requires status == Queued || SettledBySome(t, ck, status)
    ensures ConsignmentsInv(t)
  {
    forall c | c in t.consignments && t.consignments[c] != Queued
      ensures SettledBySome(t, c, t.consignments[c])
    {
      if c != ck {
        SettledBySomeGrows(s, t, c, s.consignments[c]);
      }
    }
  }

  lemma SchedulingKeepsIssued(s: State, l: Label)
    requires IsScheduling(l) && SchedulingStep(s, l).Some? && IssuedInv(s) && PcsInv(s)
    ensures IssuedInv(SchedulingStep(s, l).value)
  {
    if l.Enqueue? || l.InsertRun? {
      assert PcInv(s, s.pcs[l.actor]);
    }
  }

  lemma DispatchKeepsIssued(s: State, l: Label)
    requires IsDispatch(l) && DispatchStep(s, l).Some? && IssuedInv(s)
    ensures IssuedInv(DispatchStep(s, l).value)
  {
  }

  lemma ResponseKeepsIssued(s: State, l: Label)
    requires IsResponse(l) && ResponseStep(s, l).Some? && IssuedInv(s)
    ensures IssuedInv(ResponseStep(s, l).value)
  {
  }

  lemma IssuedKept(s: State, l: Label)
    requires Next(s, l).Some? && IssuedInv(s) && PcsInv(s) && RowsInv(s) && WritesInv(s)
    ensures IssuedInv(Next(s, l).value)
  {
    if IsScheduling(l) {
      SchedulingKeepsIssued(s, l);
    } else if IsDispatch(l) {
      DispatchKeepsIssued(s, l);
    } else if IsResponse(l) {
      ResponseKeepsIssued(s, l);
    } else if l.RemoveTask? && l.key in s.tasks {
      ReadsSeenMeta(s, l.key);
    }
  }

  lemma ForwardedKept(s: State, l: Label)
    requires Next(s, l).Some? && ForwardedInv(s) && PcsInv(s) && IssuedInv(s)
    ensures ForwardedInv(Next(s, l).value)
  {
    var t := Next(s, l).value;
    StepGrows(s, l);
    forall e | e in t.forwarded ensures FromResponse(t, e) {
      if e in s.forwarded {
        var r, m :| Agreed(s, r, m) && e == EventFor(r, m, e.queueTopic);
        SeenMetaGrows(s, t, KeyAnswered(r), m);
        assert Agreed(t, r, m);
      } else {
        var pc := s.pcs[l.actor];
        PcGrows(s, t, pc);
        assert PcInv(s, pc);
        assert Agreed(t, pc.r, pc.meta);
      }
    }
  }

  lemma PcsKept(s: State, l: Label)
    requires Next(s, l).Some? && Inv(s)
    ensures PcsInv(Next(s, l).value)
  {
    var t := Next(s, l).value;
    StepGrows(s, l);
    forall a | a in t.pcs ensures PcInv(t, t.pcs[a]) {
      if IsBy(l, a) {
        MoverKept(s, l);
      } else {
        OthersLeavePcOnce(s, l, a);
        assert At(t, a) == At(s, a);
        PcGrows(s, t, s.pcs[a]);
      }
    }
  }

  /** The goroutine that took the step carries true facts afterwards. */
  lemma MoverKept(s: State, l: Label)
    requires Next(s, l).Some? && Inv(s)
    requires !l.ForeignSend? && !l.Redeliver? && !l.RemoveTask?
    ensures MoverOk(Next(s, l).value, l.actor)
  {
    if l.Receive? || l.Publish? || l.Mark? {
      DispatcherKept(s, l);
    } else if l.Validate? || l.Match? || l.WriteTask? || l.WriteConsignment? || l.GiveUp? {
      ResponderKept(s, l);
    } else if l.InsertTask? || l.InsertConsignment? || l.ReadRun? {
      SchedulerKept(s, l);
    }
  }

  ghost predicate MoverOk(t: State, a: nat) {
    a in t.pcs ==> PcInv(t, t.pcs[a])
  }

  lemma SchedulerKept(s: State, l: Label)
    requires l.InsertTask? || l.InsertConsignment? || l.ReadRun?
    requires SchedulingStep(s, l).Some? && PcsInv(s) && IssuedInv(s) && RowsInv(s) && WritesInv(s)
    ensures MoverOk(SchedulingStep(s, l).value, l.actor)
  {
    if l.InsertConsignment? {
      assert PcInv(s, s.pcs[l.actor]);
    } else if l.ReadRun? {
      ReadsSeenMeta(s, l.key);
    }
  }

  lemma DispatcherKept(s: State, l: Label)
    requires l.Receive? || l.Publish? || l.Mark?
    requires DispatchStep(s, l).Some? && PcsInv(s) && QueueInv(s)
    ensures MoverOk(DispatchStep(s, l).value, l.actor)
  {
    if !l.Receive? {
      assert PcInv(s, s.pcs[l.actor]);
    }
  }

  lemma ResponderKept(s: State, l: Label)
    requires l.Validate? || l.Match? || l.WriteTask? || l.WriteConsignment? || l.GiveUp?
    requires ResponseStep(s, l).Some? && PcsInv(s) && RowsInv(s) && WritesInv(s)
    ensures MoverOk(ResponseStep(s, l).value, l.actor)
  {
    if !l.Validate? {
      assert PcInv(s, s.pcs[l.actor]);
    }
    if l.Match? {
      ReadsSeenMeta(s, KeyAnswered(s.pcs[l.actor].r));
    }
  }

  /** What a row shows to a reader is an allowed reading. */
  lemma ReadsSeenMeta(s: State, k: Key)
    requires RowsInv(s) && WritesInv(s) && k in s.tasks
    ensures SeenMeta(s, k, s.tasks[k].meta)
  {
    assert (k, s.tasks[k].status) in s.writes;
  }

  lemma StepKeepsInv(s: State, l: Label)
    requires Next(s, l).Some? && Inv(s)
    ensures Inv(Next(s, l).value)
  {
    QueueKept(s, l);
    DeliveryKept(s, l);
    PublishedKept(s, l);
    WritesKept(s, l);
    RowsKept(s, l);
    ConsignmentsKept(s, l);
    IssuedKept(s, l);
    ForwardedKept(s, l);
    PcsKept(s, l);
  }

  lemma {:induction false} RunKeepsInv(s: State, ls: seq<Label>, t: State)
    requires Exec(s, ls) == Some(t) && Inv(s)
    ensures Inv(t)
    decreases ls
  {
    if ls != [] {
      StepKeepsInv(s, ls[0]);
      RunKeepsInv(Next(s, ls[0]).value, ls[1..], t);
    }
  }

  lemma InvAfter(ls: seq<Label>, s: State)
    requires Exec(INITIAL, ls) == Some(s)
    ensures Inv(s)
  {
    RunKeepsInv(INITIAL, ls, s);
  }
}
