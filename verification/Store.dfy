/** The tables and the dispatch queue as the program sees them: updated in place, shared
    with every other goroutine, and free to fail.

    `run` records the steps everybody has taken, the errors their calls reported and what
    their reads found. Every method keeps `Valid`, which says that the recorded run is
    possible, that its notes were true, and that it leads to the present state; and it states
    what its own goroutine added. So each method is a program of the step system that acts on
    what it was told, and whatever holds after every run holds after every call, with other
    goroutines moving in between. The calls that are `failing` may fail at any time, before
    taking effect or after; any other fails only for what it was given, and the contracts say
    what must then have happened. */
module Stores {
  import opened Wrappers
  import opened Text
  import opened Errors
  import opened Protocol
  import opened Safety
  import opened ServiceDispatch
  import opened Traces

  /** What the database takes for ids, and where new ones come from: the texts that the
      driver binds to the UUID and the TIMEUUID column of an update, those that the query
      language takes as literals of these columns, and the generator of time-based ids. */
  datatype IdTexts = IdTexts(
    bindsDevice: string -> bool, bindsTask: string -> bool,
    literalDevice: string -> bool, literalTask: string -> bool,
    next: set<string> -> string)

  /** The one assumption about the generator: what it issues is an id, and a new one. */
  ghost predicate IssuesFresh(ids: IdTexts) {
    forall used :: ids.next(used) !in used && ids.next(used) != "" && ids.bindsTask(ids.next(used))
  }

  predicate IsLiteral(ids: IdTexts, k: Key) {
    ids.literalDevice(k.device) && ids.literalTask(k.task)
  }

  /** The texts that `MarkTaskDispatched` and then the update itself accept. */
  predicate Markable(ids: IdTexts, msg: ServiceMessage) {
    msg.deviceId != "" && msg.taskId != "" && ids.bindsDevice(msg.deviceId) && ids.bindsTask(msg.taskId)
  }

  method FreshMessageId(used: set<nat>) returns (id: nat)
    ensures id !in used
  {
    id := 0;
    var rest := used;
    while rest != {}
      invariant rest <= used
      invariant forall x | x in used && x !in rest :: x < id
      decreases rest
    {
      var x :| x in rest;
      if x >= id {
        id := x + 1;
      }
      rest := rest - {x};
    }
  }

  /** How far one pass over the dispatch queue came. A call that reported an error may have
      had its effect all the same: the flags tell, and a message whose receipt reported an
      error may have been hidden without anybody knowing it. */
  datatype DispatchOutcome =
    | NoMessage
    | NotReceived
    | LostReply(mid: nat)
    | Undecodable(mid: nat, ok: bool, gone: bool)
    | NotPublished(mid: nat, reached: bool)
    | NotMarked(mid: nat, written: bool)
    | NotDeleted(mid: nat, gone: bool)
    | Done(mid: nat)

  /** `t`, and then what one pass with this outcome does and hears. */
  function AfterPass(t: Trace, a: nat, o: DispatchOutcome): Trace {
    match o
    case NoMessage => Noting(t, a, NothingVisible)
    case NotReceived => Noting(t, a, CallFailed(ReceiveCall))
    case LostReply(m) => Then(Noting(Then(t, Receive(a, m)), a, CallFailed(ReceiveCall)), Abandon(a))
    case Undecodable(m, ok, gone) => AfterLastCall(Then(t, Receive(a, m)), a, Delete(a), DeleteCall, ok, gone)
    case _ => AfterDispatch(Then(t, Receive(a, o.mid)), a, o)
  }

  predicate IsDispatchOutcome(o: DispatchOutcome) {
    o.NotPublished? || o.NotMarked? || o.NotDeleted? || o.Done?
  }

  /** The mark comes only after a publish without an error, the deletion only after such a
      mark. */
  function AfterDispatch(received: Trace, a: nat, o: DispatchOutcome): Trace
    requires IsDispatchOutcome(o)
  {
    if o.NotPublished? then Then(AfterCall(received, a, Publish(a), PublishCall, false, o.reached), Abandon(a))
    else AfterPublish(Then(received, Publish(a)), a, o)
  }

  function AfterPublish(published: Trace, a: nat, o: DispatchOutcome): Trace
    requires IsDispatchOutcome(o) && !o.NotPublished?
  {
    var marked := Then(published, Mark(a));
    match o
    case NotMarked(_, written) => Then(AfterCall(published, a, Mark(a), MarkCall, false, written), Abandon(a))
    case NotDeleted(_, gone) => AfterLastCall(marked, a, Delete(a), DeleteCall, false, gone)
    case Done(_) => Then(marked, Delete(a))
  }

  /** How a pass must end when no call fails but for what it was given: the message is gone,
      except that one whose ids the update does not accept is published, never marked, and
      stays. */
  function FaultlessOutcome(ids: IdTexts, mid: nat, body: Body): DispatchOutcome {
    match body
    case Garbage(_) => Undecodable(mid, true, true)
    case Encoded(msg) => if Markable(ids, msg) then Done(mid) else NotMarked(mid, false)
  }

  /** The first call that reported an error is one that may fail, or one that was given ids
      it does not accept. */
  predicate PassFailsWell(failing: set<Operation>, ids: IdTexts, body: Body, o: DispatchOutcome) {
    match o
    case Undecodable(_, ok, _) => body.Garbage? && (ok || DeleteCall in failing)
    case NotPublished(_, _) => PublishCall in failing
    case NotMarked(_, _) => MarkCall in failing || (body.Encoded? && !Markable(ids, body.msg))
    case NotDeleted(_, _) => DeleteCall in failing
    case _ => true
  }

  /** The pass neither marked the task nor deleted the message. */
  predicate NeverMarked(o: DispatchOutcome) {
    o.NotPublished? || (o.NotMarked? && !o.written)
  }

  /** The claims of a validated device access token. */
  datatype Claims = Claims(subject: string, tenantId: string, managementService: string)

  datatype DeviceMessage = DeviceMessage(
    taskId: string, taskStatus: string, messageId: string, messageType: string, payload: Bytes)

  function ResponseOf(c: Claims, m: DeviceMessage): Response {
    Response(c.subject, c.tenantId, c.managementService,
             m.taskId, m.taskStatus, m.messageId, m.messageType, m.payload)
  }

  /** What became of the two status writes of a response: the first or the second reported
      an error, having written or not, or both went well. */
  datatype StatusWrites = FirstFailed(written: bool) | SecondFailed(written: bool) | BothWritten

  /** The write of the task row had its effect. */
  predicate WroteTask(w: StatusWrites) {
    w.FirstFailed? ==> w.written
  }

  /** The second write is tried only after a first one without an error. */
  function AfterWrites(t: Trace, a: nat, w: StatusWrites): Trace {
    match w
    case FirstFailed(written) => Then(AfterCall(t, a, WriteTask(a), UpdateTaskCall, false, written), GiveUp(a))
    case SecondFailed(written) =>
      var u := AfterCall(Then(t, WriteTask(a)), a, WriteConsignment(a), UpdateConsignmentCall, false, written);
      if written then u else Then(u, GiveUp(a))
    case BothWritten => Then(Then(t, WriteTask(a)), WriteConsignment(a))
  }

  /** The errors of a query of the tasks table and of a call to a queue. */
  const QUERY_FAILED := Library("tasks")
  const SEND_FAILED := Library("queue")

  /** `t`, and then what `GetTaskByID` heard. */
  function AfterRead(t: Trace, a: nat, k: Key, row: Result<Row, Error>): Trace {
    match row
    case Success(v) => Noting(t, a, SawTask(k, Some(v)))
    case Failure(e) =>
      if e == Plain(ErrNotFound) then Noting(t, a, SawTask(k, None))
      else if e == QUERY_FAILED then Noting(t, a, CallFailed(ReadCall))
      else t
  }

  /** Why a response is turned down before any write. */
  function Refusal(c: Claims, message: DeviceMessage, row: Result<Row, Error>): Option<Error> {
    if row.Failure? then Some(row.error)
    else if row.value.meta.service != c.managementService then Some(Plain(ErrInvalidServiceID))
    else if row.value.meta.tenant != c.tenantId then Some(Plain(ErrInvalidTenantID))
    else if Outcome(message.taskStatus).None? then Some(Plain(ErrInvalidRequest))
    else None
  }

  /** From `q` to `r` message `mid` has been hidden, and nothing else has changed. */
  predicate Hides(q: map<nat, Entry>, mid: nat, r: map<nat, Entry>) {
    mid in q && q[mid].visible && r == q[mid := Entry(q[mid].body, false)]
  }

  /** The body is the encoding of a message with the ids and the columns of this task. */
  predicate CarriesTask(body: Body, k: Key, m: Meta) {
    body.Encoded? && body.msg.deviceId == k.device && body.msg.taskId == k.task &&
    body.msg.serviceId == m.service && body.msg.tenantId == m.tenant &&
    body.msg.messageId == m.messageId && body.msg.messageType == m.messageType && body.msg.payload == m.payload
  }

  class Store {
    /** The calls that may fail at any time. Any other fails only for what it was given. */
    const failing: set<Operation>
    const ids: IdTexts

    var tasks: map<Key, Row>
    var consignments: map<ConsignmentKey, Status>
    var runs: map<RunKey, Key>
    var queue: map<nat, Entry>
    // what the broker and the id generator have seen, so as not to repeat themselves
    var accepted: map<nat, Body>
    var issued: set<string>

    /** The whole state of the step system, and the run that led to it. */
    ghost var model: State
    ghost var run: Trace

    /** The recorded run leads to the model, and the model is what the tables say. */
    ghost predicate Valid()
      reads this
    {
      Reached(run) == Some(model) && IssuesFresh(ids) &&
      tasks == model.tasks && consignments == model.consignments && runs == model.runs &&
      queue == model.queue && accepted == model.accepted && issued == model.issued
    }

    /** No call fails but for what it was given. */
    predicate Healthy() {
      failing == {}
    }

    /** What goroutine `a` has done and heard. */
    ghost function Steps(a: nat): Trace
      reads this`run
    {
      OwnTrace(run, a)
    }

    /** Where goroutine `a` stands. */
    ghost function Stage(a: nat): Option<Pc>
      reads this`model
    {
      At(model, a)
    }

    constructor (failing: set<Operation>, ids: IdTexts)
      requires IssuesFresh(ids)
      ensures Valid() && run == Start && model == INITIAL && this.failing == failing && this.ids == ids
    {
      this.failing, this.ids := failing, ids;
      tasks, consignments, runs, queue := map[], map[], map[], map[];
      accepted, issued := map[], {};
      model, run := INITIAL, Start;
    }

    /** Any number of steps of anybody else. The method itself does nothing: a caller can
        count on its contract only, and that promises no more than `OthersInterfere` proves
        of every such steps. */
    method Interfere(a: nat)
      requires Valid()
      modifies this
      ensures Valid() && Grows(old(model), model)
      ensures Steps(a) == old(Steps(a)) && Stage(a) == old(Stage(a))
    {
    }

    /** The model takes a step of goroutine `a`. */
    ghost method Take(a: nat, l: Label)
      requires Reached(run) == Some(model) && Next(model, l).Some? && IsBy(l, a)
      modifies `run, `model
      ensures Reached(run) == Some(model) && Some(model) == Next(old(model), l)
      ensures Steps(a) == Then(old(Steps(a)), l) && Grows(old(model), model)
    {
      ReachedKeepsInv(run);
      StepGrows(model, l);
      run, model := Then(run, l), Next(model, l).value;
    }

    /** Goroutine `a` is told something, and it is true. */
    ghost method Hear(a: nat, n: Note)
      requires Reached(run) == Some(model) && IsTrue(model, n)
      modifies `run
      ensures Reached(run) == Some(model) && Steps(a) == Noting(old(Steps(a)), a, n)
    {
      run := Noting(run, a, n);
    }

    /** A call that had its effect or not, and reported success or an error. */
    ghost method Called(a: nat, l: Label, call: Operation, ok: bool, done: bool)
      requires Reached(run) == Some(model) && IsBy(l, a) && (done ==> Next(model, l).Some?)
      modifies `run, `model
      ensures Reached(run) == Some(model) && Grows(old(model), model)
      ensures if done then Some(model) == Next(old(model), l) else model == old(model)
      ensures Steps(a) == AfterCall(old(Steps(a)), a, l, call, ok, done)
    {
      if done {
        Take(a, l);
      }
      if !ok {
        Hear(a, CallFailed(call));
      }
    }

    /** The goroutine returns from the middle of its work. */
    ghost method Stop(a: nat)
      requires Valid() && Stage(a).Some?
      modifies `run, `model
      ensures Valid() && Stage(a) == None && Grows(old(model), model)
      ensures Steps(a) == Then(old(Steps(a)), Abandon(a))
    {
      Take(a, Abandon(a));
    }

    /** An encoding that fails. */
    method Encode(a: nat) returns (ok: bool)
      requires Valid()
      modifies `run
      ensures Valid() && (EncodeCall !in failing ==> ok)
      ensures Steps(a) == if ok then old(Steps(a)) else Noting(old(Steps(a)), a, CallFailed(EncodeCall))
    {
      ok := *;
      ok := ok || EncodeCall !in failing;
      if !ok {
        Hear(a, CallFailed(EncodeCall));
      }
    }

    // --- The dispatch queue -----------------------------------------------------------

    /** Receives one message and hides it for the visibility timeout. Without a message the
        ghost result tells why: there is none, or the call reported an error. */
    method ReceiveMessage(a: nat) returns (r: Option<(nat, Body)>, ghost o: DispatchOutcome)
      requires Valid() && Stage(a) == None
      modifies `queue, `run, `model
      ensures Valid() && Grows(old(model), model)
      ensures r.None? ==>
                (o.NoMessage? || o.NotReceived? || o.LostReply?) && Stage(a) == None &&
                Steps(a) == AfterPass(old(Steps(a)), a, o) &&
                (if o.LostReply? then Hides(old(queue), o.mid, queue) else queue == old(queue)) &&
                (ReceiveCall !in failing ==> o.NoMessage?)
      ensures r.Some? ==>
                Hides(old(queue), r.value.0, queue) && queue[r.value.0].body == r.value.1 &&
                Steps(a) == Then(old(Steps(a)), Receive(a, r.value.0)) &&
                Stage(a) == Some(match r.value.1 {
                                   case Encoded(msg) => Received(r.value.0, msg)
                                   case Garbage(_) => ReceivedGarbage(r.value.0)
                                 })
    {
      var fault, reported: bool := *, *;
      if fault && ReceiveCall in failing {
        Hear(a, CallFailed(ReceiveCall));
        return None, NotReceived;
      }
      var visible := set m | m in queue && queue[m].visible;
      if visible == {} {
        assert forall m | m in queue && queue[m].visible :: m in visible;
        Hear(a, NothingVisible);
        return None, NoMessage;
      }
      var mid: nat :| mid in visible;
      var body := queue[mid].body;
      queue := queue[mid := Entry(body, false)];
      Take(a, Receive(a, mid));
      if !reported && ReceiveCall in failing {
        Hear(a, CallFailed(ReceiveCall));
        Stop(a);
        return None, LostReply(mid);
      }
      return Some((mid, body)), Done(mid);
    }

    /** Deletes a message; the call may report an error although the message is gone. */
    method DeleteMessage(a: nat, mid: nat) returns (ok: bool, gone: bool)
      requires Valid() && Stage(a).Some?
      requires Stage(a).value.Marked? || Stage(a).value.ReceivedGarbage?
      requires Stage(a).value.mid == mid
      modifies `queue, `run, `model
      ensures Valid() && Stage(a) == None && Grows(old(model), model)
      ensures (ok ==> gone) && (DeleteCall !in failing ==> ok)
      ensures Steps(a) == AfterLastCall(old(Steps(a)), a, Delete(a), DeleteCall, ok, gone)
      ensures queue == if gone then old(queue) - {mid} else old(queue)
    {
      ok, gone := Fortune(DeleteCall);
      if gone {
        queue := queue - {mid};
      }
      Called(a, Delete(a), DeleteCall, ok, gone);
      if !gone {
        Stop(a);
      }
    }

    /** What becomes of a call: it may take effect or not, and only then report success. */
    method Fortune(call: Operation) returns (ok: bool, done: bool)
      ensures (ok ==> done) && (call !in failing ==> ok)
    {
      ok, done := *, *;
      ok, done := (ok && done) || call !in failing, done || call !in failing;
    }

    /** Publishes to the broker; an error may come after the broker got the message. */
    method SendTaskToBroker(a: nat, topic: string, mid: nat, msg: ServiceMessage) returns (ok: bool, reached: bool)
      requires Valid() && Stage(a) == Some(Received(mid, msg))
      requires topic == DeviceTaskTopic(msg.deviceId, msg.serviceId)
      modifies `run, `model
      ensures Valid() && (ok ==> reached) && (PublishCall !in failing ==> ok) && Grows(old(model), model)
      ensures Stage(a) == Some(if reached then Pc.Published(mid, msg) else Received(mid, msg))
      ensures Steps(a) == AfterCall(old(Steps(a)), a, Publish(a), PublishCall, ok, reached)
      ensures reached ==> Publication(topic, msg) in model.published
    {
      ok, reached := Fortune(PublishCall);
      Called(a, Publish(a), PublishCall, ok, reached);
    }

    method MarkTaskDispatched(a: nat, mid: nat, msg: ServiceMessage) returns (ok: bool, written: bool)
      requires Valid() && Stage(a) == Some(Pc.Published(mid, msg))
      modifies `tasks, `run, `model
      ensures Valid() && (ok ==> written) && Grows(old(model), model)
      ensures msg.deviceId == "" || msg.taskId == "" ==> !ok && !written
      ensures !Markable(ids, msg) ==> !ok && !written
      ensures MarkCall !in failing && Markable(ids, msg) ==> ok
      ensures Stage(a) == Some(if written then Marked(mid, msg) else Pc.Published(mid, msg))
      ensures Steps(a) == AfterCall(old(Steps(a)), a, Mark(a), MarkCall, ok, written)
      ensures tasks ==
              if written then SetTaskStatus(old(tasks), Key(msg.deviceId, msg.taskId), Dispatched) else old(tasks)
    {
      ok, written := Fortune(MarkCall);
      if msg.deviceId == "" || msg.taskId == "" {
        ok, written := false, false;
      } else if !ids.bindsDevice(msg.deviceId) || !ids.bindsTask(msg.taskId) {
        ok, written := false, false;
      }
      if written {
        tasks := SetTaskStatus(tasks, KeyOf(msg), Dispatched);
      }
      Called(a, Mark(a), MarkCall, ok, written);
    }

    /** `processSchedulerDispatchRequest`: publish, then mark, then delete. */
    method ProcessDispatchRequest(a: nat) returns (ghost o: DispatchOutcome, ghost got: Option<(nat, Body)>)
      requires Valid() && Stage(a) == None
      modifies this
      ensures Valid() && Stage(a) == None && Grows(old(model), model)
      ensures Steps(a) == AfterPass(old(Steps(a)), a, o)
      ensures got.None? ==> o.NoMessage? || o.NotReceived? || o.LostReply?
      ensures got.None? && ReceiveCall !in failing ==> o == NoMessage
      ensures got.Some? ==> got.value.0 in accepted && accepted[got.value.0] == got.value.1
      ensures got.Some? && got.value.1.Encoded? && !Markable(ids, got.value.1.msg) ==> NeverMarked(o)
      ensures got.Some? ==> PassFailsWell(failing, ids, got.value.1, o)
      ensures got.Some? && Healthy() ==> o == FaultlessOutcome(ids, got.value.0, got.value.1)
    {
      Interfere(a);
      var received;
      received, o := ReceiveMessage(a);
      got := received;
      if received.None? {
        return;
      }
      ReceivedWasAccepted(a, received.value.0, received.value.1);
      var (mid, body) := received.value;
      Interfere(a);
      match body {
        case Garbage(_) =>
          var ok, gone := DeleteMessage(a, mid);
          o := Undecodable(mid, ok, gone);
        case Encoded(msg) =>
          o := Dispatch(a, mid, msg);
      }
    }

    /** The queue holds what it accepted. */
    lemma ReceivedWasAccepted(a: nat, mid: nat, body: Body)
      requires Valid() && mid in queue && queue[mid].body == body
      ensures mid in model.accepted && model.accepted[mid] == body
    {
      ReachedKeepsInv(run);
    }

    /** From the receipt of a decoded message to its removal. */
    method Dispatch(a: nat, mid: nat, msg: ServiceMessage) returns (o: DispatchOutcome)
      requires Valid() && Stage(a) == Some(Received(mid, msg))
      modifies this
      ensures Valid() && Stage(a) == None && Grows(old(model), model)
      ensures Healthy() ==> o == FaultlessOutcome(ids, mid, Encoded(msg))
      ensures PassFailsWell(failing, ids, Encoded(msg), o)
      ensures IsDispatchOutcome(o) && o.mid == mid
      ensures !Markable(ids, msg) ==> NeverMarked(o)
      ensures Steps(a) == AfterDispatch(old(Steps(a)), a, o)
    {
      var sent, reached := SendTaskToBroker(a, DeviceTaskTopic(msg.deviceId, msg.serviceId), mid, msg);
      Interfere(a);
      if !sent {
        Stop(a);
        return NotPublished(mid, reached);
      }
      o := MarkAndDelete(a, mid, msg);
    }

    method MarkAndDelete(a: nat, mid: nat, msg: ServiceMessage) returns (o: DispatchOutcome)
      requires Valid() && Stage(a) == Some(Pc.Published(mid, msg))
      modifies this
      ensures Valid() && Stage(a) == None && Grows(old(model), model)
      ensures Healthy() ==> o == FaultlessOutcome(ids, mid, Encoded(msg))
      ensures PassFailsWell(failing, ids, Encoded(msg), o)
      ensures IsDispatchOutcome(o) && !o.NotPublished? && o.mid == mid
      ensures !Markable(ids, msg) ==> NeverMarked(o)
      ensures Steps(a) == AfterPublish(old(Steps(a)), a, o)
    {
      var ok, written := MarkTaskDispatched(a, mid, msg);
      Interfere(a);
      if !ok {
        Stop(a);
        return NotMarked(mid, written);
      }
      var deleted, gone := DeleteMessage(a, mid);
      return if deleted then Done(mid) else NotDeleted(mid, gone);
    }

    // --- Task responses ---------------------------------------------------------------

    /** `GetTaskByID` for a response; `uuid` tells which texts are UUIDs. A query with ids
        that are no literals fails. */
    method GetTaskForResponse(a: nat, r: Response, uuid: string -> bool) returns (row: Result<Row, Error>)
      requires Valid() && Stage(a) == Some(Validated(r))
      modifies `run
      ensures Valid() && ReadsWell(r, uuid, row)
      ensures Steps(a) == AfterRead(old(Steps(a)), a, KeyAnswered(r), row)
      ensures row.Success? ==>
                Key(r.subject, r.taskId) in tasks && row.value == tasks[Key(r.subject, r.taskId)]
      ensures row == Failure(Plain(ErrNotFound)) ==> Key(r.subject, r.taskId) !in tasks
    {
      var k := KeyAnswered(r);
      if !uuid(r.subject) || r.taskId == "" {
        return Failure(Plain(ErrInvalidRequest));
      }
      var fault: bool := *;
      if !IsLiteral(ids, k) || (fault && ReadCall in failing) {
        Hear(a, CallFailed(ReadCall));
        return Failure(QUERY_FAILED);
      }
      if k !in tasks {
        Hear(a, SawTask(k, None));
        return Failure(Plain(ErrNotFound));
      }
      Hear(a, SawTask(k, Some(tasks[k])));
      return Success(tasks[k]);
    }

    /** The read of the row can end so: the ids decide first, and a query that can be made
        fails only where reads may. */
    predicate ReadsWell(r: Response, uuid: string -> bool, row: Result<Row, Error>) {
      if !uuid(r.subject) || r.taskId == "" then row == Failure(Plain(ErrInvalidRequest))
      else if !IsLiteral(ids, KeyAnswered(r)) then row == Failure(QUERY_FAILED)
      else
        row.Success? || row == Failure(Plain(ErrNotFound)) || (ReadCall in failing && row == Failure(QUERY_FAILED))
    }

    method SetTaskStatusFor(a: nat, r: Response, m: Meta, status: Status) returns (ok: bool, written: bool)
      requires Valid() && Stage(a) == Some(Matched(r, m)) && Outcome(r.taskStatus) == Some(status)
      modifies `tasks, `run, `model
      ensures Valid() && (ok ==> written) && (UpdateTaskCall !in failing ==> ok) && Grows(old(model), model)
      ensures Stage(a) == Some(if written then TaskWritten(r, m) else Matched(r, m))
      ensures Steps(a) == AfterCall(old(Steps(a)), a, WriteTask(a), UpdateTaskCall, ok, written)
      ensures tasks == if written then SetTaskStatus(old(tasks), Key(r.subject, r.taskId), status) else old(tasks)
      ensures written ==> (Key(r.subject, r.taskId), status) in model.writes
    {
      ok, written := Fortune(UpdateTaskCall);
      if written {
        tasks := SetTaskStatus(tasks, KeyAnswered(r), status);
      }
      Called(a, WriteTask(a), UpdateTaskCall, ok, written);
    }

    method UpdateConsignmentTaskStatus(a: nat, r: Response, m: Meta, status: Status) returns (ok: bool, written: bool)
      requires Valid() && Stage(a) == Some(TaskWritten(r, m)) && Outcome(r.taskStatus) == Some(status)
      modifies `consignments, `run, `model
      ensures Valid() && (ok ==> written) && (UpdateConsignmentCall !in failing ==> ok) && Grows(old(model), model)
      ensures Stage(a) == Some(if written then Settled(r, m) else TaskWritten(r, m))
      ensures Steps(a) == AfterCall(old(Steps(a)), a, WriteConsignment(a), UpdateConsignmentCall, ok, written)
      ensures consignments ==
              if written then old(consignments)[ConsignmentKey(m.tenant, m.consignment, r.taskId) := status]
              else old(consignments)
    {
      ok, written := Fortune(UpdateConsignmentCall);
      if written {
        consignments := consignments[ConsignmentKeyOf(KeyAnswered(r), m) := status];
      }
      Called(a, WriteConsignment(a), UpdateConsignmentCall, ok, written);
    }

    /** A write fails only where such writes may. */
    predicate WritesWell(w: StatusWrites) {
      (w.FirstFailed? ==> UpdateTaskCall in failing) && (w.SecondFailed? ==> UpdateConsignmentCall in failing)
    }

    /** The status update is over without its last write. */
    ghost method Settle(a: nat, r: Response, m: Meta)
      requires Valid() && (Stage(a) == Some(Matched(r, m)) || Stage(a) == Some(TaskWritten(r, m)))
      modifies `run, `model
      ensures Valid() && Stage(a) == Some(Settled(r, m)) && Grows(old(model), model)
      ensures Steps(a) == Then(old(Steps(a)), GiveUp(a))
    {
      Take(a, GiveUp(a));
    }

    /** `UpdateTaskStatus`: the task row, then, only if that went well, the consignment row. */
    method UpdateTaskStatus(a: nat, r: Response, m: Meta, status: Status) returns (ok: bool, ghost w: StatusWrites)
      requires Valid() && Stage(a) == Some(Matched(r, m)) && Outcome(r.taskStatus) == Some(status)
      modifies this
      ensures Valid() && Stage(a) == Some(Settled(r, m)) && Grows(old(model), model)
      ensures Steps(a) == AfterWrites(old(Steps(a)), a, w)
      ensures WroteTask(w) ==> (Key(r.subject, r.taskId), status) in model.writes
      ensures (ok <==> w.BothWritten?) && WritesWell(w)
    {
      var written;
      ok, written := SetTaskStatusFor(a, r, m, status);
      if !ok {
        Settle(a, r, m);
        return false, FirstFailed(written);
      }
      Interfere(a);
      ok, written := UpdateConsignmentTaskStatus(a, r, m, status);
      if !written {
        Settle(a, r, m);
      }
      return ok, if ok then BothWritten else SecondFailed(written);
    }

    ghost method Authenticated(a: nat, r: Response)
      requires Valid() && Stage(a) == None
      modifies `run, `model
      ensures Valid() && Stage(a) == Some(Validated(r)) && Steps(a) == Then(old(Steps(a)), Validate(a, r))
      ensures Grows(old(model), model)
    {
      Take(a, Validate(a, r));
    }

    ghost method MatchedWith(a: nat, r: Response, m: Meta)
      requires Valid() && Stage(a) == Some(Validated(r)) && Matches(r, m) && Outcome(r.taskStatus).Some?
      requires KeyAnswered(r) in tasks && tasks[KeyAnswered(r)].meta == m
      modifies `run, `model
      ensures Valid() && Stage(a) == Some(Matched(r, m)) && Steps(a) == Then(old(Steps(a)), Match(a))
      ensures Agreed(model, r, m) && Grows(old(model), model)
    {
      Take(a, Match(a));
      ReachedKeepsInv(run);
      assert PcInv(model, model.pcs[a]);
    }

    /** Sends the response to the queue of the service; the call may report an error although
        the queue has it. */
    method ForwardResponse(a: nat, r: Response, m: Meta, queueTopic: string) returns (ok: bool, sent: bool)
      requires Valid() && Stage(a) == Some(Settled(r, m))
      modifies `run, `model
      ensures Valid() && Stage(a) == None && Grows(old(model), model)
      ensures (ok ==> sent) && (ForwardCall !in failing ==> ok)
      ensures Steps(a) == AfterLastCall(old(Steps(a)), a, Forward(a, queueTopic), ForwardCall, ok, sent)
      ensures sent ==> EventFor(r, m, queueTopic) in model.forwarded
    {
      ok, sent := Fortune(ForwardCall);
      Called(a, Forward(a, queueTopic), ForwardCall, ok, sent);
      if !sent {
        Stop(a);
      }
    }

    /** The rest of the handling, once the token agrees with the row. A failed status update
        is only logged: its error is overwritten, and the route decides the answer. With a
        route to a known service the response is always sent, and only the sending can fail.
        The ghost results tell what became of the writes, and whether the queue of the
        service got the event. */
    method AnswerMatched(a: nat, r: Response, m: Meta, services: Dispatcher, mqttTopic: string)
      returns (result: Result<(), Error>, ghost w: StatusWrites, ghost sent: bool)
      requires Valid() && Stage(a) == Some(Matched(r, m)) && Outcome(r.taskStatus).Some?
      modifies this
      ensures Valid() && Stage(a) == None && Grows(old(model), model)
      ensures QueueFor(services, m, mqttTopic) == "" ==> result == Failure(Plain(ErrInvalidMessageType)) && !sent
      ensures QueueFor(services, m, mqttTopic) != "" && r.service !in services.serviceConfigTable ==>
                result == Failure(Plain(ErrInternalError)) && !sent
      ensures QueueFor(services, m, mqttTopic) != "" && r.service in services.serviceConfigTable ==>
                (result == Success(()) && sent) || (ForwardCall in failing && result == Failure(SEND_FAILED))
      ensures Steps(a) == AfterAnswer(AfterWrites(old(Steps(a)), a, w), a, services, r, m, mqttTopic, result, sent)
      ensures sent ==> EventFor(r, m, QueueFor(services, m, mqttTopic)) in model.forwarded
      ensures WritesWell(w)
      ensures WroteTask(w) ==> (Key(r.subject, r.taskId), Outcome(r.taskStatus).value) in model.writes
    {
      var _, writes := UpdateTaskStatus(a, r, m, Outcome(r.taskStatus).value);
      w := writes;
      result, sent := RouteResponse(a, r, m, services, mqttTopic);
    }

    /** From the status update on: what the service expects, and the sending. */
    method RouteResponse(a: nat, r: Response, m: Meta, services: Dispatcher, mqttTopic: string)
      returns (result: Result<(), Error>, ghost sent: bool)
      requires Valid() && Stage(a) == Some(Settled(r, m))
      modifies this
      ensures Valid() && Stage(a) == None && Grows(old(model), model)
      ensures RouteDecides(services, r, m, mqttTopic, result, sent)
      ensures Steps(a) == AfterAnswer(old(Steps(a)), a, services, r, m, mqttTopic, result, sent)
      ensures sent ==> EventFor(r, m, QueueFor(services, m, mqttTopic)) in model.forwarded
    {
      sent := false;
      var queueTopic := services.GetServiceQueueTopic(m.service, mqttTopic);
      if queueTopic == "" {
        Stop(a);
        return Failure(Plain(ErrInvalidMessageType)), false;
      }
      var config := services.GetServiceConfig(r.service);
      if config.None? {
        Stop(a);
        return Failure(Plain(ErrInternalError)), false;
      }
      Interfere(a);
      var ok, reached := ForwardResponse(a, r, m, queueTopic);
      return if ok then Success(()) else Failure(SEND_FAILED), reached;
    }

    /** The queue on which the service of a task expects messages of this topic, or "". */
    function QueueFor(services: Dispatcher, m: Meta, mqttTopic: string): string
      reads services
    {
      FlatLookup(services.serviceDispatchTable, m.service, mqttTopic)
    }

    /** There is a queue for the topic, of a service that is configured. */
    predicate HasRoute(services: Dispatcher, r: Response, m: Meta, mqttTopic: string)
      reads services
    {
      QueueFor(services, m, mqttTopic) != "" &&
      r.service in services.serviceConfigTable
    }

    /** The answer to a response that agrees with its task, whatever became of the writes. */
    predicate RouteDecides(services: Dispatcher, r: Response, m: Meta, mqttTopic: string,
                           result: Result<(), Error>, sent: bool)
      reads services
    {
      if QueueFor(services, m, mqttTopic) == "" then
        result == Failure(Plain(ErrInvalidMessageType)) && !sent
      else if r.service !in services.serviceConfigTable then
        result == Failure(Plain(ErrInternalError)) && !sent
      else
        (result == Success(()) && sent) || (ForwardCall in failing && result == Failure(SEND_FAILED))
    }

    function AfterAnswer(settled: Trace, a: nat, services: Dispatcher, r: Response, m: Meta, mqttTopic: string,
                         result: Result<(), Error>, sent: bool): Trace
      reads services
    {
      var queueTopic := QueueFor(services, m, mqttTopic);
      if HasRoute(services, r, m, mqttTopic)
      then AfterLastCall(settled, a, Forward(a, queueTopic), ForwardCall, result.Success?, sent)
      else Then(settled, Abandon(a))
    }

    /** `handleTaskResponseMessage`. The ghost results are what was read of the task row, what
        became of the two status writes, and whether the queue of the service got the event.
        What was read is in the trace, and so was there when it was read. */
    method HandleTaskResponse(a: nat, claims: Option<Claims>, message: DeviceMessage, mqttTopic: string,
                              services: Dispatcher, uuid: string -> bool)
      returns (result: Result<(), Error>, ghost row: Result<Row, Error>, ghost w: StatusWrites, ghost sent: bool)
      requires Valid() && Stage(a) == None
      modifies this
      ensures Valid() && Stage(a) == None && Grows(old(model), model)
      ensures claims.None? ==> result.Failure? && Steps(a) == old(Steps(a))
      ensures claims.Some? ==> ReadsWell(ResponseOf(claims.value, message), uuid, row)
      ensures claims.Some? && (!uuid(claims.value.subject) || message.taskId == "") ==>
                result == Failure(Plain(ErrInvalidRequest)) && !sent
      ensures claims.Some? && row.Failure? ==> result == Failure(row.error) && !sent
      ensures claims.Some? && row.Success? && row.value.meta.service != claims.value.managementService ==>
                result == Failure(Plain(ErrInvalidServiceID)) && !sent
      ensures claims.Some? && row.Success? && row.value.meta.service == claims.value.managementService &&
              row.value.meta.tenant != claims.value.tenantId ==>
                result == Failure(Plain(ErrInvalidTenantID)) && !sent
      ensures claims.Some? && row.Success? && row.value.meta.service == claims.value.managementService &&
              row.value.meta.tenant == claims.value.tenantId &&
              !Says(message.taskStatus, Completed) && !Says(message.taskStatus, Failed) ==>
                result == Failure(Plain(ErrInvalidRequest)) && !sent
      ensures claims.Some? && row.Success? && row.value.meta.service == claims.value.managementService &&
              row.value.meta.tenant == claims.value.tenantId && WroteTask(w) ==>
                var k := Key(claims.value.subject, message.taskId);
                (Says(message.taskStatus, Completed) ==> (k, Completed) in model.writes) &&
                (Says(message.taskStatus, Failed) ==> (k, Status.Failed) in model.writes)
      ensures sent ==> claims.Some? && row.Success?
      ensures sent ==>
                var c, m := claims.value, row.value.meta;
                DeviceEvent(queueTopic := QueueFor(services, m, mqttTopic), serviceId := c.managementService,
                            deviceId := c.subject, taskId := message.taskId, consignmentId := m.consignment,
                            tenantId := c.tenantId, taskStatus := message.taskStatus,
                            messageId := message.messageId, messageType := message.messageType,
                            payload := message.payload) in model.forwarded
      ensures claims.Some? && Refusal(claims.value, message, row).Some? ==>
                var r := ResponseOf(claims.value, message);
                result == Failure(Refusal(claims.value, message, row).value) && !sent &&
                (row.Success? ==> KeyAnswered(r) in tasks && tasks[KeyAnswered(r)] == row.value) &&
                Steps(a) == Then(AfterRead(Then(old(Steps(a)), Validate(a, r)), a, KeyAnswered(r), row), Abandon(a))
      ensures claims.Some? && Refusal(claims.value, message, row).None? ==>
                var r, m := ResponseOf(claims.value, message), row.value.meta;
                var read := AfterRead(Then(old(Steps(a)), Validate(a, r)), a, KeyAnswered(r), row);
                Steps(a) == AfterAnswer(AfterWrites(Then(read, Match(a)), a, w),
                                        a, services, r, m, mqttTopic, result, sent) &&
                RouteDecides(services, r, m, mqttTopic, result, sent) && Agreed(model, r, m) && WritesWell(w)
    {
      row, w, sent := Failure(QUERY_FAILED), BothWritten, false;
      if claims.None? {
        return Failure(Library("invalid token")), row, w, sent;
      }
      var r := ResponseOf(claims.value, message);
      Authenticated(a, r);
      Interfere(a);
      var found := GetTaskForResponse(a, r, uuid);
      row := found;
      OutcomeIffSays(message.taskStatus, Completed);
      OutcomeIffSays(message.taskStatus, Status.Failed);
      var refusal := Refusal(claims.value, message, found);
      if refusal.Some? {
        Stop(a);
        return Failure(refusal.value), row, w, sent;
      }
      var m := found.value.meta;
      MatchedWith(a, r, m);
      ghost var agreed := model;
      Interfere(a);
      result, w, sent := AnswerMatched(a, r, m, services, mqttTopic);
      GrowsTwice(old(model), agreed, model);
      AgreedGrows(agreed, model, r, m);
    }

    // --- Scheduling -------------------------------------------------------------------

    /** Inserts a new task row under a fresh id. */
    method InsertTaskRow(a: nat, device: string, m: Meta, once: bool) returns (ok: bool, stored: bool, id: string)
      requires Valid() && Stage(a) == None
      modifies `tasks, `issued, `run, `model
      ensures Valid() && (ok ==> stored) && (InsertTaskCall !in failing ==> ok) && Grows(old(model), model)
      ensures id !in old(issued) && id != "" && ids.bindsTask(id)
      ensures tasks == if stored then old(tasks)[Key(device, id) := Row(m, Queued)] else old(tasks)
      ensures Stage(a) == if stored then Some(TaskStored(Key(device, id), m, once)) else None
      ensures Steps(a) == AfterCall(old(Steps(a)), a, InsertTask(a, Key(device, id), m, once),
                                    InsertTaskCall, ok, stored)
    {
      id := ids.next(issued);
      var k := Key(device, id);
      ok, stored := Fortune(InsertTaskCall);
      if stored {
        tasks := tasks[k := Row(m, Queued)];
        issued := issued + {k.task};
      }
      Called(a, InsertTask(a, k, m, once), InsertTaskCall, ok, stored);
    }

    method InsertConsignmentRow(a: nat, k: Key, m: Meta, once: bool) returns (ok: bool, stored: bool)
      requires Valid() && Stage(a) == Some(TaskStored(k, m, once))
      modifies `consignments, `run, `model
      ensures Valid() && (ok ==> stored) && (InsertConsignmentCall !in failing ==> ok) && Grows(old(model), model)
      ensures consignments ==
              if stored then old(consignments)[ConsignmentKey(m.tenant, m.consignment, k.task) := Queued]
              else old(consignments)
      ensures Stage(a) == if stored then Some(ConsignmentStored(k, m, once)) else old(Stage(a))
      ensures Steps(a) == AfterCall(old(Steps(a)), a, InsertConsignment(a), InsertConsignmentCall, ok, stored)
    {
      ok, stored := Fortune(InsertConsignmentCall);
      if stored {
        consignments := consignments[ConsignmentKeyOf(k, m) := Queued];
      }
      Called(a, InsertConsignment(a), InsertConsignmentCall, ok, stored);
    }

    method InsertRunRow(a: nat, k: Key, m: Meta, rk: RunKey) returns (ok: bool, stored: bool)
      requires Valid() && Stage(a) == Some(ConsignmentStored(k, m, false))
      modifies `runs, `run, `model
      ensures Valid() && Stage(a) == None && Grows(old(model), model)
      ensures (ok ==> stored) && (InsertRunCall !in failing ==> ok)
      ensures runs == if stored then old(runs)[rk := k] else old(runs)
      ensures Steps(a) == AfterLastCall(old(Steps(a)), a, InsertRun(a, rk), InsertRunCall, ok, stored)
    {
      ok, stored := Fortune(InsertRunCall);
      if stored {
        runs := runs[rk := k];
      }
      Called(a, InsertRun(a, rk), InsertRunCall, ok, stored);
      if !stored {
        Stop(a);
      }
    }

    /** `SendDispatchQueueMessage` for the task the goroutine carries. The call may report an
        error although the queue has accepted the message; `mid` is its id, if it has. */
    method SendDispatchMessage(a: nat, k: Key, m: Meta) returns (ok: bool, sent: bool, mid: nat)
      requires Valid() && (Stage(a) == Some(ConsignmentStored(k, m, true)) || Stage(a) == Some(RunFound(k, m)))
      modifies `queue, `accepted, `run, `model
      ensures Valid() && Stage(a) == None && Grows(old(model), model)
      ensures (ok ==> sent) && (EnqueueCall !in failing ==> ok) && mid !in old(accepted)
      ensures Steps(a) == AfterLastCall(old(Steps(a)), a, Enqueue(a, mid), EnqueueCall, ok, sent)
      ensures sent ==> mid in accepted && CarriesTask(accepted[mid], k, m)
      ensures queue == if sent then old(queue)[mid := Entry(accepted[mid], true)] else old(queue)
    {
      ok, sent := Fortune(EnqueueCall);
      mid := FreshMessageId(accepted.Keys);
      if sent {
        queue := queue[mid := Entry(Encoded(MessageOf(k, m)), true)];
        accepted := accepted[mid := Encoded(MessageOf(k, m))];
      }
      Called(a, Enqueue(a, mid), EnqueueCall, ok, sent);
      if !sent {
        Stop(a);
      }
    }

    /** The daemon looks up the task of a due run. Without a row, `missing` tells that there
        is none, and otherwise the query reported an error. */
    method GetTaskForRun(a: nat, k: Key) returns (row: Option<Row>, missing: bool)
      requires Valid() && Stage(a) == None && k in model.scheduled
      modifies `run, `model
      ensures Valid() && Grows(old(model), model)
      ensures row.None? ==>
                Stage(a) == None && (missing ==> k in model.removed) && (ReadCall !in failing ==> missing) &&
                Steps(a) == Noting(old(Steps(a)), a, if missing then SawTask(k, None) else CallFailed(ReadCall))
      ensures row.Some? ==>
                k in tasks && row.value == tasks[k] &&
                Stage(a) == Some(RunFound(k, row.value.meta)) && Steps(a) == Then(old(Steps(a)), ReadRun(a, k))
    {
      var fault: bool := *;
      missing := k !in tasks;
      if fault && ReadCall in failing {
        Hear(a, CallFailed(ReadCall));
        return None, false;
      }
      if missing {
        ScheduledOrRemoved(k);
        Hear(a, SawTask(k, None));
        return None, true;
      }
      Found(a, k);
      return Some(tasks[k]), false;
    }

    ghost method Found(a: nat, k: Key)
      requires Valid() && Stage(a) == None && k in model.scheduled && k in tasks
      modifies `run, `model
      ensures Valid() && Stage(a) == Some(RunFound(k, tasks[k].meta)) && Grows(old(model), model)
      ensures Steps(a) == Then(old(Steps(a)), ReadRun(a, k))
    {
      Take(a, ReadRun(a, k));
    }

    /** The daemon begins to query a partition. */
    ghost method SeeRuns(a: nat, partition: int)
      requires Valid()
      modifies `run
      ensures Valid() && Steps(a) == Noting(old(Steps(a)), a, SawRuns(partition, RunsIn(runs, partition)))
    {
      Hear(a, SawRuns(partition, RunsIn(runs, partition)));
    }

    /** A query for a page of runs reported an error. */
    ghost method PageFailed(a: nat)
      requires Valid()
      modifies `run
      ensures Valid() && Steps(a) == Noting(old(Steps(a)), a, CallFailed(PageCall))
    {
      Hear(a, CallFailed(PageCall));
    }

    /** The table holds runs of scheduled tasks only. */
    lemma RunsAreScheduled()
      requires Valid()
      ensures forall rk | rk in runs :: runs[rk] in model.scheduled
    {
      ReachedKeepsInv(run);
    }

    /** The row of a task that has a run is there unless it was removed. */
    lemma ScheduledOrRemoved(k: Key)
      requires Valid() && k in model.scheduled && k !in tasks
      ensures k in model.removed
    {
      ReachedKeepsInv(run);
    }

    /** A row that is there is as it was created, unless it was removed meanwhile. */
    lemma RowIsCreated(k: Key)
      requires Valid() && k in model.scheduled && k in tasks
      ensures k in model.created && (k !in model.removed ==> tasks[k].meta == model.created[k])
    {
      ReachedKeepsInv(run);
    }

    /** `RemoveTask`, for ids that parse; an error may come after the row is gone. */
    method RemoveTask(k: Key) returns (ok: bool, gone: bool)
      requires Valid()
      modifies `tasks, `run, `model
      ensures Valid() && (ok ==> gone) && (RemoveCall !in failing ==> ok)
      ensures tasks == if gone then old(tasks) - {k} else old(tasks)
    {
      ok, gone := Fortune(RemoveCall);
      if gone {
        tasks := tasks - {k};
        run, model := Then(run, Label.RemoveTask(k)), Next(model, Label.RemoveTask(k)).value;
      }
    }
  }
}
