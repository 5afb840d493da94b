/** The task dispatch and response protocol as a system of atomic steps.

    A state holds the three tables, the dispatch queue and, for every goroutine that is in
    the middle of an operation, where it stands and what it has read (`Pc`). One step is
    one table statement, one queue call or one publish. Steps of different goroutines
    interleave freely, and any goroutine may stop after any step (`Abandon`): that is a
    failed call, a shutdown, or a call whose effect took place although it reported an
    error. A label carries everything a step leaves open, so a run is a sequence of labels.

    The history fields only ever grow. They are what "earlier in the run" means below. */
module Protocol {
  import opened Wrappers
  import opened Text

  // --- Tables, messages and queues ----------------------------------------------------

  type Bytes = seq<bv8>

  const BROADCAST_DEVICE_UUID := "0a110a11-bca5-bca5-0a11-87dcb71a7f4d"

  datatype Status = Queued | Dispatched | Completed | Failed | PendingRetry | Unknown
  {
    predicate Terminal() { Completed? || Failed? }
  }

  /** Primary key of the tasks table. */
  datatype Key = Key(device: string, task: string)

  /** The columns that `CreateTask` writes and a status update leaves alone. A row that an
      UPDATE brings into existence has them null, which a reader sees as empty. */
  datatype Meta = Meta(tenant: string, service: string, consignment: string,
                       messageId: string, messageType: string, payload: Bytes)

  const NULL_META := Meta("", "", "", "", "", [])

  datatype Row = Row(meta: Meta, status: Status)

  /** Primary key of the consignments table. */
  datatype ConsignmentKey = ConsignmentKey(tenant: string, consignment: string, task: string)

  /** Primary key of the scheduled runs table: the date, then the instant as stored. */
  datatype RunKey = RunKey(partition: int, nextRun: int)

  datatype ServiceMessage = ServiceMessage(
    serviceId: string, deviceId: string, taskId: string, tenantId: string,
    messageId: string, messageType: string, payload: Bytes)

  /** A queue body: the encoding of a message, or text that does not decode. */
  datatype Body = Encoded(msg: ServiceMessage) | Garbage(text: string)

  datatype Entry = Entry(body: Body, visible: bool)

  datatype Publication = Publication(topic: string, msg: ServiceMessage)

  /** A device message whose access token validated, with the claims of the token. */
  datatype Response = Response(
    subject: string, tenant: string, service: string,
    taskId: string, taskStatus: string,
    messageId: string, messageType: string, payload: Bytes)

  /** What the requesting service is sent about a response. */
  datatype DeviceEvent = DeviceEvent(
    queueTopic: string, serviceId: string, deviceId: string, taskId: string,
    consignmentId: string, tenantId: string, taskStatus: string,
    messageId: string, messageType: string, payload: Bytes)

  function MessageOf(k: Key, m: Meta): ServiceMessage {
    ServiceMessage(m.service, k.device, k.task, m.tenant, m.messageId, m.messageType, m.payload)
  }

  function KeyOf(msg: ServiceMessage): Key {
    Key(msg.deviceId, msg.taskId)
  }

  function ConsignmentKeyOf(k: Key, m: Meta): ConsignmentKey {
    ConsignmentKey(m.tenant, m.consignment, k.task)
  }

  function KeyAnswered(r: Response): Key {
    Key(r.subject, r.taskId)
  }

  function DeviceTaskTopic(deviceId: string, serviceId: string): string {
    if deviceId == BROADCAST_DEVICE_UUID then "v1/@devices/" + serviceId
    else "v1/" + deviceId + "/tasks"
  }

  function PublicationOf(msg: ServiceMessage): Publication {
    Publication(DeviceTaskTopic(msg.deviceId, msg.serviceId), msg)
  }

  /** The status a device reports, in any letter case. */
  function Outcome(taskStatus: string): Option<Status> {
    var s := Lower(taskStatus);
    if s == "complete" || s == "success" then Some(Completed)
    else if s == "failed" || s == "error" then Some(Failed)
    else None
  }

  /** The words a device may report a status with, in small letters, capitals, or both. */
  predicate Says(taskStatus: string, status: Status) {
    match status
    case Completed => Spells(taskStatus, "complete") || Spells(taskStatus, "success")
    case Failed => Spells(taskStatus, "failed") || Spells(taskStatus, "error")
    case _ => false
  }

  lemma OutcomeIffSays(taskStatus: string, status: Status)
    ensures Outcome(taskStatus) == Some(status) <==> Says(taskStatus, status)
  {
    SpellsIff(taskStatus, "complete");
    SpellsIff(taskStatus, "success");
    SpellsIff(taskStatus, "failed");
    SpellsIff(taskStatus, "error");
  }

  predicate Matches(r: Response, m: Meta) {
    m.service == r.service && m.tenant == r.tenant
  }

  function EventFor(r: Response, m: Meta, queueTopic: string): DeviceEvent {
    DeviceEvent(queueTopic, r.service, r.subject, r.taskId, m.consignment, r.tenant,
                r.taskStatus, r.messageId, r.messageType, r.payload)
  }

  // --- States -------------------------------------------------------------------------

  /** Where a goroutine stands, and what it carries from the steps it has taken. */
  datatype Pc =
    | TaskStored(key: Key, meta: Meta, once: bool)         // task row inserted
    | ConsignmentStored(key: Key, meta: Meta, once: bool)  // consignment row inserted too
    | RunFound(key: Key, meta: Meta)                       // daemon has read a due task
    | Received(mid: nat, msg: ServiceMessage)
    | ReceivedGarbage(mid: nat)
    | Published(mid: nat, msg: ServiceMessage)
    | Marked(mid: nat, msg: ServiceMessage)
    | Validated(r: Response)
    | Matched(r: Response, meta: Meta)                     // row read, token agrees with it
    | TaskWritten(r: Response, meta: Meta)
    | Settled(r: Response, meta: Meta)                     // status update done or given up

  datatype State = State(
    tasks: map<Key, Row>,
    consignments: map<ConsignmentKey, Status>,
    runs: map<RunKey, Key>,
    queue: map<nat, Entry>,
    pcs: map<nat, Pc>,
    // histories
    accepted: map<nat, Body>,          // every message the dispatch queue ever accepted
    published: set<Publication>,
    writes: set<(Key, Status)>,        // every status ever written to a task row
    responses: set<Response>,          // every authenticated device response
    created: map<Key, Meta>,           // every row CreateTask inserted
    removed: set<Key>,
    issued: set<string>,               // every task id issued or named in a queue message
    scheduled: set<Key>,               // every task a run was ever inserted for
    forwarded: set<DeviceEvent>)

  const INITIAL := State(map[], map[], map[], map[], map[],
                         map[], {}, {}, {}, map[], {}, {}, {}, {})

  /** The goroutine is handling a response. */
  predicate CarriesResponse(pc: Pc) {
    pc.Validated? || pc.Matched? || pc.TaskWritten? || pc.Settled?
  }

  // --- Steps --------------------------------------------------------------------------

  datatype Label =
    // Scheduling
    | InsertTask(actor: nat, key: Key, meta: Meta, once: bool)
    | InsertConsignment(actor: nat)
    | InsertRun(actor: nat, runKey: RunKey)
    | Enqueue(actor: nat, mid: nat)
    // Daemon
    | ReadRun(actor: nat, key: Key)
    // Dispatch watcher
    | Receive(actor: nat, mid: nat)
    | Publish(actor: nat)
    | Mark(actor: nat)
    | Delete(actor: nat)
    // Task responses
    | Validate(actor: nat, r: Response)
    | Match(actor: nat)
    | WriteTask(actor: nat)
    | WriteConsignment(actor: nat)
    | GiveUp(actor: nat)
    | Forward(actor: nat, queueTopic: string)
    // Any goroutine stops
    | Abandon(actor: nat)
    // No goroutine of ours
    | ForeignSend(mid: nat, body: Body)
    | Redeliver(mid: nat)
    | RemoveTask(key: Key)

  predicate IsBy(l: Label, a: nat) {
    !l.ForeignSend? && !l.Redeliver? && !l.RemoveTask? && l.actor == a
  }

  /** An UPDATE of the status column: an upsert. */
  function SetTaskStatus(tasks: map<Key, Row>, k: Key, status: Status): map<Key, Row> {
    tasks[k := Row(if k in tasks then tasks[k].meta else NULL_META, status)]
  }

  function At(s: State, a: nat): Option<Pc> {
    if a in s.pcs then Some(s.pcs[a]) else None
  }

  function Goto(s: State, a: nat, pc: Pc): State {
    s.(pcs := s.pcs[a := pc])
  }

  function Idle(s: State, a: nat): State {
    s.(pcs := s.pcs - {a})
  }

  function Accept(s: State, mid: nat, body: Body): State {
    s.(queue := s.queue[mid := Entry(body, true)], accepted := s.accepted[mid := body])
  }

  predicate IsScheduling(l: Label) {
    l.InsertTask? || l.InsertConsignment? || l.InsertRun? || l.Enqueue? || l.ReadRun?
  }

  predicate IsDispatch(l: Label) {
    l.Receive? || l.Publish? || l.Mark? || l.Delete?
  }

  predicate IsResponse(l: Label) {
    l.Validate? || l.Match? || l.WriteTask? || l.WriteConsignment? || l.GiveUp? || l.Forward?
  }

  /** The state after a step, or None when the step is not possible. */
  function Next(s: State, l: Label): Option<State> {
    if IsScheduling(l) then SchedulingStep(s, l)
    else if IsDispatch(l) then DispatchStep(s, l)
    else if IsResponse(l) then ResponseStep(s, l)
    else OtherStep(s, l)
  }

  /** A step of a scheduling request or the daemon. */
  function SchedulingStep(s: State, l: Label): Option<State>
    requires IsScheduling(l)
  {
    match l
    case InsertTask(a, k, m, once) =>
      if a in s.pcs || k.task in s.issued then None
      else Some(Goto(s, a, TaskStored(k, m, once)).(
                  tasks := s.tasks[k := Row(m, Queued)],
                  writes := s.writes + {(k, Queued)},
                  created := s.created[k := m],
                  issued := s.issued + {k.task}))
    case InsertConsignment(a) =>
      (match At(s, a)
       case Some(TaskStored(k, m, once)) =>
         Some(Goto(s, a, ConsignmentStored(k, m, once)).(
                consignments := s.consignments[ConsignmentKeyOf(k, m) := Queued]))
       case _ => None)
    case InsertRun(a, rk) =>
      (match At(s, a)
       case Some(ConsignmentStored(k, m, once)) =>
         if once then None
         else Some(Idle(s, a).(runs := s.runs[rk := k], scheduled := s.scheduled + {k}))
       case _ => None)
    case Enqueue(a, mid) =>
      (match At(s, a)
       case Some(ConsignmentStored(k, m, once)) =>
         if !once || mid in s.accepted then None else Some(Accept(Idle(s, a), mid, Encoded(MessageOf(k, m))))
       case Some(RunFound(k, m)) =>
         if mid in s.accepted then None else Some(Accept(Idle(s, a), mid, Encoded(MessageOf(k, m))))
       case _ => None)
    case ReadRun(a, k) =>
      if a in s.pcs || k !in s.scheduled || k !in s.tasks then None
      else Some(Goto(s, a, RunFound(k, s.tasks[k].meta)))
  }

  /** A step of a dispatch watcher. */
  function DispatchStep(s: State, l: Label): Option<State>
    requires IsDispatch(l)
  {
    match l
    case Receive(a, mid) =>
      if a in s.pcs || mid !in s.queue || !s.queue[mid].visible then None
      else
        var body := s.queue[mid].body;
        var pc := if body.Encoded? then Received(mid, body.msg) else ReceivedGarbage(mid);
        Some(Goto(s, a, pc).(queue := s.queue[mid := Entry(body, false)]))
    case Publish(a) =>
      (match At(s, a)
       case Some(Received(mid, msg)) =>
         Some(Goto(s, a, Published(mid, msg)).(published := s.published + {PublicationOf(msg)}))
       case _ => None)
    case Mark(a) =>
      (match At(s, a)
       case Some(Published(mid, msg)) =>
         if msg.deviceId == "" || msg.taskId == "" then None
         else Some(Goto(s, a, Marked(mid, msg)).(
                     tasks := SetTaskStatus(s.tasks, KeyOf(msg), Dispatched),
                     writes := s.writes + {(KeyOf(msg), Dispatched)}))
       case _ => None)
    case Delete(a) =>
      (match At(s, a)
       case Some(Marked(mid, _)) => Some(Idle(s, a).(queue := s.queue - {mid}))
       case Some(ReceivedGarbage(mid)) => Some(Idle(s, a).(queue := s.queue - {mid}))
       case _ => None)
  }

  /** A step of a task response handler. */
  function ResponseStep(s: State, l: Label): Option<State>
    requires IsResponse(l)
  {
    match l
    case Validate(a, r) =>
      if a in s.pcs then None
      else Some(Goto(s, a, Validated(r)).(responses := s.responses + {r}))
    case Match(a) =>
      (match At(s, a)
       case Some(Validated(r)) =>
         var k := KeyAnswered(r);
         if k !in s.tasks || !Matches(r, s.tasks[k].meta) || Outcome(r.taskStatus).None? then None
         else Some(Goto(s, a, Matched(r, s.tasks[k].meta)))
       case _ => None)
    case WriteTask(a) =>
      (match At(s, a)
       case Some(Matched(r, m)) =>
         (match Outcome(r.taskStatus)
          case None => None
          case Some(status) =>
            Some(Goto(s, a, TaskWritten(r, m)).(
                   tasks := SetTaskStatus(s.tasks, KeyAnswered(r), status),
                   writes := s.writes + {(KeyAnswered(r), status)})))
       case _ => None)
    case WriteConsignment(a) =>
      (match At(s, a)
       case Some(TaskWritten(r, m)) =>
         (match Outcome(r.taskStatus)
          case None => None
          case Some(status) =>
            Some(Goto(s, a, Settled(r, m)).(
                   consignments := s.consignments[ConsignmentKeyOf(KeyAnswered(r), m) := status])))
       case _ => None)
    case GiveUp(a) =>
      (match At(s, a)
       case Some(Matched(r, m)) => Some(Goto(s, a, Settled(r, m)))
       case Some(TaskWritten(r, m)) => Some(Goto(s, a, Settled(r, m)))
       case _ => None)
    case Forward(a, queueTopic) =>
      (match At(s, a)
       case Some(Settled(r, m)) =>
         Some(Idle(s, a).(forwarded := s.forwarded + {EventFor(r, m, queueTopic)}))
       case _ => None)
  }

  /** A goroutine stopping, and the steps that are not a goroutine's. */
  function OtherStep(s: State, l: Label): Option<State>
    requires !IsScheduling(l) && !IsDispatch(l) && !IsResponse(l)
  {
    match l
    case Abandon(a) =>
      if a in s.pcs then Some(Idle(s, a)) else None
    case ForeignSend(mid, body) =>
      if mid in s.accepted then None
      else Some(Accept(s, mid, body).(
                  issued := s.issued + (if body.Encoded? then {body.msg.taskId} else {})))
    case Redeliver(mid) =>
      if mid !in s.queue then None
      else Some(s.(queue := s.queue[mid := s.queue[mid].(visible := true)]))
    case RemoveTask(k) =>
      Some(s.(tasks := s.tasks - {k}, removed := s.removed + (if k in s.tasks then {k} else {})))
  }

  // --- Runs ---------------------------------------------------------------------------

  /** The state a run ends in, or None when one of its steps is not possible. */
  function Exec(s: State, ls: seq<Label>): Option<State>
    decreases ls
  {
    if ls == [] then Some(s)
    else match Next(s, ls[0])
      case None => None
      case Some(t) => Exec(t, ls[1..])
  }

  lemma ExecFirst(s: State, l: Label, ls: seq<Label>)
    requires Next(s, l).Some?
    ensures Exec(s, [l] + ls) == Exec(Next(s, l).value, ls)
  {
    assert ([l] + ls)[1..] == ls;
  }

  lemma ThreeSteps(s: State, l1: Label, l2: Label, l3: Label)
    requires Next(s, l1).Some? && Next(Next(s, l1).value, l2).Some?
    requires Next(Next(Next(s, l1).value, l2).value, l3).Some?
    ensures Exec(s, [l1, l2, l3]) == Next(Next(Next(s, l1).value, l2).value, l3)
  {
    var t1 := Next(s, l1).value;
    var t2 := Next(t1, l2).value;
    ExecFirst(s, l1, [l2, l3]);
    ExecFirst(t1, l2, [l3]);
    ExecFirst(t2, l3, []);
    assert [l1] + [l2, l3] == [l1, l2, l3];
    assert [l2] + [l3] == [l2, l3];
    assert [l3] + [] == [l3];
  }

  lemma {:induction false} ExecConcat(s: State, ls: seq<Label>, ms: seq<Label>)
    ensures Exec(s, ls + ms) ==
            match Exec(s, ls) { case None => None case Some(t) => Exec(t, ms) }
    decreases ls
  {
    if ls == [] {
      assert ls + ms == ms;
    } else {
      assert (ls + ms)[1..] == ls[1..] + ms;
      match Next(s, ls[0]) {
        case None =>
        case Some(t) => ExecConcat(t, ls[1..], ms);
      }
    }
  }

  /** Nobody else moves a goroutine. */
  lemma OthersLeavePcOnce(s: State, l: Label, a: nat)
    requires Next(s, l).Some? && !IsBy(l, a)
    ensures At(Next(s, l).value, a) == At(s, a)
  {
  }
}
