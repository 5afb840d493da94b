/** A request to schedule one task on many devices. */
module RequestHandling {
  import opened Wrappers
  import opened Errors
  import opened Plans
  import opened Protocol
  import opened ServiceDispatch
  import opened Safety
  import opened Traces
  import opened Stores
  import opened ScheduledTasks
  import Grammar

  datatype TaskInfo = TaskInfo(taskId: string, deviceId: string, status: Status)

  datatype Reply = Reply(
    version: nat, taskCount: nat, errorCount: nat,
    consignmentId: string, tenantId: string, tasks: seq<TaskInfo>)

  const EVENT := "event"
  const REST := "rest"

  /** The requests that are not rejected up front. An absent list of device ids is empty. */
  predicate Admissible(lib: Lib, registered: set<string>, request: Request, source: string) {
    (source == EVENT || source == REST) &&
    request.serviceId in registered && request.consignmentId != "" &&
    request.deviceIds != [] && request.payload.Some? &&
    (if request.deviceIds[0] == BROADCAST_DEVICE_ID then |request.deviceIds| == 1
     else lib.uuid(request.tenantId))
  }

  /** A broadcast is stored under the broadcast tenant, whatever tenant it named. */
  function Addressed(request: Request): Request {
    if request.deviceIds != [] && request.deviceIds[0] == BROADCAST_DEVICE_ID
    then request.(tenantId := BROADCAST_DEVICE_UUID)
    else request
  }

  // --- What became of each device id --------------------------------------------------

  datatype Handled = Handled(deviceId: string, key: Key, meta: Meta, once: bool, outcome: ScheduleOutcome, ok: bool)

  /** The steps of handling these device ids, one after the other. */
  function AfterAll(t: Trace, a: nat, hs: seq<Handled>): Trace {
    if hs == [] then t
    else
      var h := hs[|hs| - 1];
      AfterSchedule(AfterAll(t, a, hs[..|hs| - 1]), a, h.key, h.meta, h.once, h.outcome)
  }

  function Successes(hs: seq<Handled>): nat {
    if hs == [] then 0 else Successes(hs[..|hs| - 1]) + (if hs[|hs| - 1].ok then 1 else 0)
  }

  function Reported(hs: seq<Handled>): seq<TaskInfo> {
    if hs == [] then []
    else
      var h := hs[|hs| - 1];
      Reported(hs[..|hs| - 1]) + (if h.ok then [TaskInfo(h.key.task, h.deviceId, Queued)] else [])
  }

  /** A task can be made for this device id: it is a UUID, or "@all" in the first place, and
      the schedule is in the language of schedules. */
  predicate Acceptable(lib: Lib, request: Request, deviceId: string, index: nat) {
    (index == 0 || deviceId != "@all") &&
    lib.cqlUuid(if deviceId == "@all" then BROADCAST_DEVICE_UUID else deviceId) &&
    Grammar.Read(lib, request.schedule).Some?
  }

  /** `CreateTask` can store a task of this request. */
  predicate Storable(lib: Lib, request: Request) {
    lib.uuid(request.tenantId) && request.payload.Some? && request.consignmentId != ""
  }

  /** The schedule is to run the task once, right away. */
  predicate IsOnce(lib: Lib, request: Request) {
    Grammar.Read(lib, request.schedule) == Some(Grammar.Immediately)
  }

  /** The columns are those of the request. */
  predicate CarriesRequest(m: Meta, request: Request) {
    m.service == request.serviceId && m.tenant == request.tenantId && m.consignment == request.consignmentId &&
    m.messageId == request.messageId && m.messageType == request.messageType && Some(m.payload) == request.payload
  }

  /** Only acceptable ids lead to anything. A counted success made its task row, its
      consignment row, and exactly one of a dispatch message (for a task that runs once) and
      a run; when no call fails, every acceptable id is a success. */
  predicate HandledWell(lib: Lib, request: Request, h: Handled, index: nat, healthy: bool) {
    (!Acceptable(lib, request, h.deviceId, index) ==> !h.ok && h.outcome == Refused) &&
    (h.outcome != Refused ==>
       h.key.device == (if h.deviceId == "@all" then BROADCAST_DEVICE_UUID else h.deviceId) &&
       CarriesRequest(h.meta, request) && h.once == IsOnce(lib, request)) &&
    (h.ok <==> if h.once then h.outcome.Sent? else h.outcome.RunStored?) &&
    (Storable(lib, request) && Acceptable(lib, request, h.deviceId, index) ==> h.outcome != Refused) &&
    (healthy && Storable(lib, request) && Acceptable(lib, request, h.deviceId, index) ==> h.ok)
  }

  /** How many of the first `n` device ids are acceptable. */
  function AcceptableCount(lib: Lib, request: Request, n: nat): nat
    requires n <= |request.deviceIds|
  {
    if n == 0 then 0
    else AcceptableCount(lib, request, n - 1) +
         (if Acceptable(lib, request, request.deviceIds[n - 1], n - 1) then 1 else 0)
  }

  /** No more successes than acceptable ids, and, when no call fails, as many. */
  lemma {:induction false} SuccessesAreAcceptable(lib: Lib, request: Request, hs: seq<Handled>, healthy: bool)
    requires AllHandledWell(lib, request, hs, healthy)
    ensures Successes(hs) <= AcceptableCount(lib, request, |hs|)
    ensures healthy && Storable(lib, request) ==> Successes(hs) == AcceptableCount(lib, request, |hs|)
  {
    if hs != [] {
      var n := |hs| - 1;
      SuccessesAreAcceptable(lib, request, hs[..n], healthy);
      assert hs[n].deviceId == request.deviceIds[n] && HandledWell(lib, request, hs[n], n, healthy);
    }
  }

  lemma {:induction false} ReportedCount(hs: seq<Handled>)
    ensures |Reported(hs)| == Successes(hs) <= |hs|
  {
    if hs != [] {
      ReportedCount(hs[..|hs| - 1]);
    }
  }

  /** `a` can be had from `b` by leaving elements out. */
  ghost predicate Subsequence<T>(a: seq<T>, b: seq<T>) {
    if a == [] then true
    else if b == [] then false
    else Subsequence(a, b[..|b| - 1]) || (a[|a| - 1] == b[|b| - 1] && Subsequence(a[..|a| - 1], b[..|b| - 1]))
  }

  function DevicesOf(infos: seq<TaskInfo>): seq<string> {
    seq(|infos|, i requires 0 <= i < |infos| => infos[i].deviceId)
  }

  function DevicesHandled(hs: seq<Handled>): seq<string> {
    seq(|hs|, i requires 0 <= i < |hs| => hs[i].deviceId)
  }

  /** The devices reported are the devices asked for with some left out. */
  lemma {:induction false} ReportedIsSubsequence(hs: seq<Handled>)
    ensures Subsequence(DevicesOf(Reported(hs)), DevicesHandled(hs))
  {
    if hs != [] {
      var n := |hs| - 1;
      ReportedIsSubsequence(hs[..n]);
      assert DevicesHandled(hs)[..n] == DevicesHandled(hs[..n]);
      var before := Reported(hs[..n]);
      if hs[n].ok {
        var r := Reported(hs);
        assert r == before + [r[|r| - 1]];
        assert DevicesOf(r)[..|r| - 1] == DevicesOf(before);
        assert DevicesOf(r)[|r| - 1] == hs[n].deviceId == DevicesHandled(hs)[n];
      } else {
        assert Reported(hs) == before;
      }
    }
  }

  lemma OneMoreHandled(t: Trace, a: nat, hs: seq<Handled>, h: Handled)
    ensures AfterAll(t, a, hs + [h]) == AfterSchedule(AfterAll(t, a, hs), a, h.key, h.meta, h.once, h.outcome)
    ensures Successes(hs + [h]) == Successes(hs) + (if h.ok then 1 else 0)
    ensures Reported(hs + [h]) == Reported(hs) + (if h.ok then [TaskInfo(h.key.task, h.deviceId, Queued)] else [])
  {
    assert (hs + [h])[..|hs + [h]| - 1] == hs;
  }

  // --- What the tables and the queue hold for it --------------------------------------

  /** The task row of this device id was inserted, whatever the call reported. */
  predicate TaskWasInserted(o: ScheduleOutcome) {
    !o.Refused? && (o.TaskFailed? ==> o.stored)
  }

  /** The body is the encoding of a message for this task, with what the request says. */
  predicate TellsRequest(body: Body, k: Key, request: Request) {
    body.Encoded? && body.msg.deviceId == k.device && body.msg.taskId == k.task &&
    body.msg.serviceId == request.serviceId && body.msg.tenantId == request.tenantId &&
    body.msg.messageId == request.messageId && body.msg.messageType == request.messageType &&
    Some(body.msg.payload) == request.payload
  }

  /** The task row was created with the columns of the request, and the message that was
      queued for it says what the request says. */
  predicate IsCarried(s: State, request: Request, h: Handled) {
    (TaskWasInserted(h.outcome) ==> h.key in s.created && CarriesRequest(s.created[h.key], request)) &&
    (MessageWasQueued(h.outcome) ==>
       h.outcome.mid in s.accepted && TellsRequest(s.accepted[h.outcome.mid], h.key, request))
  }

  lemma {:induction false} EarlierIsPrefix(first: Trace, a: nat, hs: seq<Handled>, i: nat)
    requires i <= |hs|
    ensures IsPrefix(AfterAll(first, a, hs[..i]), AfterAll(first, a, hs))
  {
    if i < |hs| {
      var n := |hs| - 1;
      EarlierIsPrefix(first, a, hs[..n], i);
      assert hs[..n][..i] == hs[..i];
      var h := hs[n];
      ScheduleExtends(AfterAll(first, a, hs[..n]), a, h.key, h.meta, h.once, h.outcome);
      PrefixIsTransitive(AfterAll(first, a, hs[..i]), AfterAll(first, a, hs[..n]), AfterAll(first, a, hs));
    } else {
      assert hs[..i] == hs;
    }
  }

  lemma ScheduleExtends(t: Trace, a: nat, k: Key, m: Meta, once: bool, o: ScheduleOutcome)
    ensures IsPrefix(t, AfterSchedule(t, a, k, m, once, o))
    ensures TaskWasInserted(o) ==> IsPrefix(Then(t, InsertTask(a, k, m, once)), AfterSchedule(t, a, k, m, once, o))
    ensures MessageWasQueued(o) ==>
              IsPrefix(Then(Then(Then(t, InsertTask(a, k, m, once)), InsertConsignment(a)), Enqueue(a, o.mid)),
                       AfterSchedule(t, a, k, m, once, o))
  {
    var inserted := Then(t, InsertTask(a, k, m, once));
    var created := Then(inserted, InsertConsignment(a));
    var all := AfterSchedule(t, a, k, m, once, o);
    assert IsPrefix(t, inserted) && IsPrefix(inserted, created);
    if IsHandOver(o) {
      assert IsPrefix(created, AfterHandOver(created, a, o));
      PrefixIsTransitive(inserted, created, all);
    }
    if TaskWasInserted(o) {
      assert IsPrefix(inserted, all);
      PrefixIsTransitive(t, inserted, all);
    }
  }

  /** Whatever others did meanwhile, everything handled is there, and says what was asked. */
  lemma EverythingIsCarried(t: Trace, a: nat, first: Trace, lib: Lib, request: Request, hs: seq<Handled>,
                            healthy: bool, i: nat)
    requires Reached(t).Some? && OwnTrace(t, a) == AfterAll(first, a, hs)
    requires AllHandledWell(lib, request, hs, healthy) && i < |hs|
    ensures IsCarried(Reached(t).value, request, hs[i])
  {
    var h := hs[i];
    assert HandledWell(lib, request, h, i, healthy);
    var x := AfterAll(first, a, hs[..i]);
    assert hs[..i + 1][..i] == hs[..i];
    assert AfterAll(first, a, hs[..i + 1]) == AfterSchedule(x, a, h.key, h.meta, h.once, h.outcome);
    EarlierIsPrefix(first, a, hs, i + 1);
    ScheduleExtends(x, a, h.key, h.meta, h.once, h.outcome);
    if TaskWasInserted(h.outcome) {
      PrefixIsTransitive(Then(x, InsertTask(a, h.key, h.meta, h.once)), AfterAll(first, a, hs[..i + 1]),
                         AfterAll(first, a, hs));
      InsertedIsCreated(t, a, Then(x, InsertTask(a, h.key, h.meta, h.once)), h.key, h.meta, h.once);
    }
    if MessageWasQueued(h.outcome) {
      var mid := h.outcome.mid;
      PrefixIsTransitive(
        Then(Then(Then(x, InsertTask(a, h.key, h.meta, h.once)), InsertConsignment(a)), Enqueue(a, mid)),
        AfterAll(first, a, hs[..i + 1]), AfterAll(first, a, hs));
      EnqueuedIsAccepted(t, a, x, h.key, h.meta, h.once, mid);
    }
  }

  /** So whatever is published for a broadcast request goes to the devices of the service
      that asked, and for any other device id to that device. A device id that is the UUID
      of a broadcast is one, in any place of the request. */
  lemma RequestGoesTo(s: State, lib: Lib, request: Request, h: Handled, index: nat, healthy: bool, p: Publication)
    requires Inv(s) && HandledWell(lib, request, h, index, healthy) && IsCarried(s, request, h)
    requires MessageWasQueued(h.outcome) && p in s.published && s.accepted[h.outcome.mid] == Encoded(p.msg)
    ensures p.topic == if h.deviceId == "@all" || h.deviceId == BROADCAST_DEVICE_UUID
                       then "v1/@devices/" + request.serviceId
                       else "v1/" + h.deviceId + "/tasks"
  {
  }

  // --- The handler --------------------------------------------------------------------

  /** What the schedule of a request gives a fresh builder. */
  lemma PlanOfRequest(lib: Lib, request: Request, first: Instant, second: Instant)
    ensures var p := Parse(lib, FRESH, request.schedule, first, second);
            (Schedulable(p) <==> Grammar.Read(lib, request.schedule).Some?) &&
            (Schedulable(p) ==> (p.unit == Once <==> IsOnce(lib, request)))
  {
    Grammar.ParseAgreesWithRead(lib, request.schedule, first, second);
    Grammar.ReadUnits(lib, request.schedule);
  }

  /** One device id: build the task, parse the schedule, schedule. */
  method ScheduleForDevice(lib: Lib, store: Store, a: nat, request: Request, deviceId: string,
                           first: Instant, second: Instant, now: Instant)
    returns (info: Option<TaskInfo>, ghost h: Handled)
    requires store.Valid() && store.Stage(a) == None
    modifies store
    ensures store.Valid() && store.Stage(a) == None
    ensures store.Steps(a) == AfterSchedule(old(store.Steps(a)), a, h.key, h.meta, h.once, h.outcome)
    ensures h.deviceId == deviceId && HandledWell(lib, request, h, 0, store.Healthy())
    ensures info == if h.ok then Some(TaskInfo(h.key.task, deviceId, Queued)) else None
  {
    PlanOfRequest(lib, request, first, second);
    var task := new ScheduledTask(lib, deviceId, request);
    ParseKeeps(lib, task.View(), request.schedule, first, second);
    task.ParseSchedule(request.schedule, first, second);
    ghost var plan := task.View();
    var r, o := task.Schedule(store, a, now);
    h := Handled(deviceId, task.TaskKey(), task.TaskMeta(), task.unit == Once, o, r.Success?);
    assert DeviceUuid(lib, deviceId).Some? ==> plan == Parse(lib, FRESH, request.schedule, first, second);
    info := if r.Success? && task.status.Some? then Some(TaskInfo(task.taskId, deviceId, task.status.value)) else None;
  }

  /** `reply` with the outcome for one more device id. */
  function Counted(reply: Reply, source: string, h: Handled): Reply {
    if !h.ok then reply.(errorCount := reply.errorCount + 1)
    else reply.(taskCount := reply.taskCount + 1,
                tasks := if source == REST then reply.tasks + [TaskInfo(h.key.task, h.deviceId, Queued)]
                         else reply.tasks)
  }

  /** One turn of the loop. */
  method HandleDevice(lib: Lib, store: Store, a: nat, request: Request, source: string,
                      clock: nat -> Instant, before: Reply, index: nat)
    returns (reply: Reply, ghost h: Handled)
    requires store.Valid() && store.Stage(a) == None && index < |request.deviceIds|
    modifies store
    ensures store.Valid() && store.Stage(a) == None
    ensures store.Steps(a) == AfterSchedule(old(store.Steps(a)), a, h.key, h.meta, h.once, h.outcome)
    ensures h.deviceId == request.deviceIds[index] && HandledWell(lib, request, h, index, store.Healthy())
    ensures index != 0 && request.deviceIds[index] == "@all" ==> !h.ok && h.outcome.Refused?
    ensures reply == Counted(before, source, h)
  {
    var deviceId := request.deviceIds[index];
    reply := before;
    if index != 0 && deviceId == BROADCAST_DEVICE_ID {
      h := Handled(deviceId, Key("", ""), NULL_META, false, Refused, false);
      reply := reply.(errorCount := reply.errorCount + 1);
      return;
    }
    var info;
    info, h := ScheduleForDevice(lib, store, a, request, deviceId,
                                 clock(3 * index), clock(3 * index + 1), clock(3 * index + 2));
    match info {
      case None => reply := reply.(errorCount := reply.errorCount + 1);
      case Some(task) =>
        reply := reply.(taskCount := reply.taskCount + 1);
        if source == REST {
          reply := reply.(tasks := reply.tasks + [task]);
        }
    }
  }

  /** These are the outcomes for the first device ids, each of them well handled. */
  predicate AllHandledWell(lib: Lib, request: Request, hs: seq<Handled>, healthy: bool) {
    |hs| <= |request.deviceIds| &&
    forall i | 0 <= i < |hs| :: hs[i].deviceId == request.deviceIds[i] && HandledWell(lib, request, hs[i], i, healthy)
  }

  /** The counters and the list of the reply agree with the outcomes. */
  predicate Tallied(reply: Reply, source: string, hs: seq<Handled>) {
    reply.taskCount == Successes(hs) && reply.taskCount + reply.errorCount == |hs| &&
    reply.tasks == if source == REST then Reported(hs) else []
  }

  lemma TalliedOneMore(reply: Reply, source: string, hs: seq<Handled>, h: Handled, t: Trace, a: nat)
    requires Tallied(reply, source, hs)
    ensures Tallied(Counted(reply, source, h), source, hs + [h])
  {
    OneMoreHandled(t, a, hs, h);
  }

  lemma HandledWellOneMore(lib: Lib, request: Request, hs: seq<Handled>, h: Handled, healthy: bool)
    requires AllHandledWell(lib, request, hs, healthy) && |hs| < |request.deviceIds|
    requires h.deviceId == request.deviceIds[|hs|] && HandledWell(lib, request, h, |hs|, healthy)
    ensures AllHandledWell(lib, request, hs + [h], healthy)
  {
  }

  /** The loop over the device ids. */
  method HandleDevices(lib: Lib, store: Store, a: nat, request: Request, source: string,
                       clock: nat -> Instant, start: Reply)
    returns (reply: Reply, ghost hs: seq<Handled>)
    requires store.Valid() && store.Stage(a) == None && Tallied(start, source, [])
    modifies store
    ensures store.Valid() && store.Stage(a) == None
    ensures |hs| == |request.deviceIds| && AllHandledWell(lib, request, hs, store.Healthy())
    ensures store.Steps(a) == AfterAll(old(store.Steps(a)), a, hs)
    ensures Tallied(reply, source, hs)
    ensures reply == start.(taskCount := reply.taskCount, errorCount := reply.errorCount, tasks := reply.tasks)
  {
    reply, hs := start, [];
    var index := 0;
    while index < |request.deviceIds|
      invariant 0 <= index == |hs| <= |request.deviceIds|
      invariant store.Valid() && store.Stage(a) == None
      invariant AllHandledWell(lib, request, hs, store.Healthy()) && Tallied(reply, source, hs)
      invariant store.Steps(a) == AfterAll(old(store.Steps(a)), a, hs)
      invariant reply == start.(taskCount := reply.taskCount, errorCount := reply.errorCount, tasks := reply.tasks)
    {
      ghost var h;
      ghost var before := reply;
      reply, h := HandleDevice(lib, store, a, request, source, clock, reply, index);
      TalliedOneMore(before, source, hs, h, Start, a);
      OneMoreHandled(old(store.Steps(a)), a, hs, h);
      HandledWellOneMore(lib, request, hs, h, store.Healthy());
      hs := hs + [h];
      index := index + 1;
    }
  }

  /** The reply to an admissible request, and the steps taken for it: every device id was
      handled well and is counted once; of the acceptable ids, all count as tasks when no
      call fails; a REST request is told the tasks, in the order of the request. */
  ghost predicate RepliesWell(lib: Lib, request: Request, source: string, healthy: bool,
                              before: Trace, after: Trace, a: nat, hs: seq<Handled>, reply: Reply) {
    var addressed := Addressed(request);
    var acceptable := AcceptableCount(lib, addressed, |addressed.deviceIds|);
    |hs| == |request.deviceIds| && AllHandledWell(lib, addressed, hs, healthy) &&
    after == AfterAll(before, a, hs) &&
    reply.taskCount == Successes(hs) && reply.taskCount + reply.errorCount == |request.deviceIds| &&
    reply.taskCount <= acceptable &&
    (healthy && lib.uuid(BROADCAST_DEVICE_UUID) ==> reply.taskCount == acceptable) &&
    reply.tasks == (if source == REST then Reported(hs) else []) &&
    (source == REST ==>
       |reply.tasks| == reply.taskCount && Subsequence(DevicesOf(reply.tasks), request.deviceIds)) &&
    reply.version == request.version && reply.consignmentId == request.consignmentId &&
    reply.tenantId == addressed.tenantId
  }

  lemma ReportsOnRequest(request: Request, hs: seq<Handled>)
    requires |hs| == |request.deviceIds|
    requires forall i | 0 <= i < |hs| :: hs[i].deviceId == request.deviceIds[i]
    ensures |Reported(hs)| == Successes(hs)
    ensures Subsequence(DevicesOf(Reported(hs)), request.deviceIds)
  {
    ReportedCount(hs);
    ReportedIsSubsequence(hs);
    assert DevicesHandled(hs) == request.deviceIds;
  }

  lemma AllIsCarried(store: Store, a: nat, first: Trace, lib: Lib, request: Request, hs: seq<Handled>)
    requires store.Valid() && store.Steps(a) == AfterAll(first, a, hs)
    requires AllHandledWell(lib, request, hs, store.Healthy())
    ensures forall h | h in hs ::
              IsCarried(store.model, request, h) && (!h.outcome.Refused? ==> h.meta.service == request.serviceId)
  {
    forall h | h in hs
      ensures IsCarried(store.model, request, h) && (!h.outcome.Refused? ==> h.meta.service == request.serviceId)
    {
      var i :| 0 <= i < |hs| && hs[i] == h;
      assert HandledWell(lib, request, hs[i], i, store.Healthy());
      EverythingIsCarried(store.run, a, first, lib, request, hs, store.Healthy(), i);
    }
  }

  /** `handleSchedulerInputQueueRequest`. The source overwrites the tenant id of the request
      it is given; here the request it leaves behind is a result. */
  method HandleRequest(lib: Lib, services: Dispatcher, store: Store, a: nat, request: Request, source: string,
                       clock: nat -> Instant)
    returns (result: Result<Reply, Error>, addressed: Request, ghost hs: seq<Handled>)
    requires store.Valid() && store.Stage(a) == None
    modifies store
    ensures store.Valid() && store.Stage(a) == None
    ensures result.Success? <==> Admissible(lib, services.serviceConfigTable.Keys, request, source)
    ensures result.Failure? ==> result.error == Plain(ErrInvalidRequest) && unchanged(store)
    ensures source != "event" && source != "rest" ==> result.Failure?
    ensures request.serviceId !in services.serviceConfigTable ==> result.Failure?
    ensures request.consignmentId == "" || |request.deviceIds| == 0 || request.payload.None? ==> result.Failure?
    ensures |request.deviceIds| > 1 && request.deviceIds[0] == "@all" ==> result.Failure?
    ensures |request.deviceIds| > 0 && request.deviceIds[0] != "@all" && !lib.uuid(request.tenantId) ==>
              result.Failure?
    ensures result.Failure? ==>
              (source != "event" && source != "rest") || request.serviceId !in services.serviceConfigTable ||
              request.consignmentId == "" || |request.deviceIds| == 0 || request.payload.None? ||
              (if request.deviceIds[0] == "@all" then |request.deviceIds| > 1 else !lib.uuid(request.tenantId))
    ensures result.Success? ==>
              addressed == (if request.deviceIds[0] == "@all" then request.(tenantId := BROADCAST_DEVICE_UUID)
                            else request) &&
              (forall h | h in hs ::
                 IsCarried(store.model, addressed, h) &&
                 (!h.outcome.Refused? ==> h.meta.service in services.serviceConfigTable)) &&
              RepliesWell(lib, request, source, store.Healthy(),
                          old(store.Steps(a)), store.Steps(a), a, hs, result.value)
  {
    hs := [];
    addressed := request;
    if source != EVENT && source != REST {
      return Failure(Plain(ErrInvalidRequest)), request, [];
    }
    var registered := services.IsValidServiceId(request.serviceId);
    if !registered {
      return Failure(Plain(ErrInvalidRequest)), request, [];
    }
    if request.consignmentId == "" {
      return Failure(Plain(ErrInvalidRequest)), request, [];
    }
    if |request.deviceIds| == 0 {
      return Failure(Plain(ErrInvalidRequest)), request, [];
    }
    if request.deviceIds[0] == BROADCAST_DEVICE_ID {
      if |request.deviceIds| != 1 {
        return Failure(Plain(ErrInvalidRequest)), request, [];
      }
      addressed := request.(tenantId := BROADCAST_DEVICE_UUID);
    } else {
      if !lib.uuid(request.tenantId) {
        return Failure(Plain(ErrInvalidRequest)), request, [];
      }
    }
    if request.payload == None {
      return Failure(Plain(ErrInvalidRequest)), request, [];
    }
    var reply := Reply(request.version, 0, 0, request.consignmentId, addressed.tenantId, []);
    reply, hs := HandleDevices(lib, store, a, addressed, source, clock, reply);
    SuccessesAreAcceptable(lib, addressed, hs, store.Healthy());
    ReportsOnRequest(request, hs);
    AllIsCarried(store, a, old(store.Steps(a)), lib, addressed, hs);
    return Success(reply), addressed, hs;
  }
}
