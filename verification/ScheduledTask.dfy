/** The builder of a scheduled task. */
module ScheduledTasks {
  import opened Wrappers
  import opened Text
  import opened Errors
  import opened RunTimes
  import opened Plans
  import opened Protocol
  import opened Traces
  import opened Stores

  /** What a scheduled run is made of before its partition and instant are known. */
  datatype RunInfo = RunInfo(device: string)

  /** A request to schedule tasks, as decoded from the wire; an absent payload is nil. */
  datatype Request = Request(
    version: nat, serviceId: string, tenantId: string, consignmentId: string,
    deviceIds: seq<string>, schedule: string,
    messageId: string, messageType: string, payload: Option<Bytes>)

  const BROADCAST_DEVICE_ID := "@all"

  /** The device id a task is stored under, or None when the text is no UUID. */
  function DeviceUuid(lib: Lib, deviceId: string): Option<string> {
    var id := if deviceId == BROADCAST_DEVICE_ID then BROADCAST_DEVICE_UUID else deviceId;
    if lib.cqlUuid(id) then Some(id) else None
  }

  const BAD_UUID := Library("invalid UUID")

  /** How far `Schedule` came: to the first call that reported an error, which may have had
      its effect all the same, or to the end. */
  datatype ScheduleOutcome =
    | Refused
    | TaskFailed(stored: bool)
    | NoConsignmentId
    | ConsignmentFailed(stored: bool)
    | NotEncoded
    | SendFailed(mid: nat, sent: bool)
    | Sent(mid: nat)
    | RunFailed(runKey: RunKey, stored: bool)
    | RunStored(runKey: RunKey)

  /** `t`, and then what scheduling a task with this outcome does and hears. */
  function AfterSchedule(t: Trace, a: nat, k: Key, m: Meta, once: bool, o: ScheduleOutcome): Trace {
    var insert := InsertTask(a, k, m, once);
    match o
    case Refused => t
    case TaskFailed(stored) =>
      var u := AfterCall(t, a, insert, InsertTaskCall, false, stored);
      if stored then Then(u, Abandon(a)) else u
    case _ => AfterTaskRow(Then(t, insert), a, o)
  }

  function AfterTaskRow(stored: Trace, a: nat, o: ScheduleOutcome): Trace
    requires !o.Refused? && !o.TaskFailed?
  {
    if o.NoConsignmentId? then Then(stored, Abandon(a))
    else if o.ConsignmentFailed? then
      Then(AfterCall(stored, a, InsertConsignment(a), InsertConsignmentCall, false, o.stored), Abandon(a))
    else AfterHandOver(Then(stored, InsertConsignment(a)), a, o)
  }

  /** The outcomes of a task whose rows were both stored. */
  predicate IsHandOver(o: ScheduleOutcome) {
    o.NotEncoded? || o.SendFailed? || o.Sent? || o.RunFailed? || o.RunStored?
  }

  function AfterHandOver(created: Trace, a: nat, o: ScheduleOutcome): Trace
    requires IsHandOver(o)
  {
    match o
    case NotEncoded => Then(Noting(created, a, CallFailed(EncodeCall)), Abandon(a))
    case SendFailed(mid, sent) => AfterLastCall(created, a, Enqueue(a, mid), EnqueueCall, false, sent)
    case Sent(mid) => Then(created, Enqueue(a, mid))
    case RunFailed(rk, stored) => AfterLastCall(created, a, InsertRun(a, rk), InsertRunCall, false, stored)
    case RunStored(rk) => Then(created, InsertRun(a, rk))
  }

  predicate Succeeded(o: ScheduleOutcome) {
    o.Sent? || o.RunStored?
  }

  /** The date a run is partitioned by, and the instant in the table's milliseconds. */
  function RunKeyAt(now: Instant): RunKey {
    RunKey(now.day, now.time / 1_000_000)
  }

  /** The run is stored under the date of this instant, and with its millisecond of the day. */
  predicate IsRunAt(rk: RunKey, now: Instant) {
    rk.partition == now.day && rk.nextRun * 1_000_000 <= now.time < (rk.nextRun + 1) * 1_000_000
  }

  /** Runs of one day are stored in the order of their instants, to the millisecond. */
  lemma RunsKeepTheOrder(r1: RunKey, t1: Instant, r2: RunKey, t2: Instant)
    requires IsRunAt(r1, t1) && IsRunAt(r2, t2) && t1.day == t2.day
    ensures r1.partition == r2.partition
    ensures t1.time <= t2.time ==> r1.nextRun <= r2.nextRun
    ensures t1.time + 1_000_000 <= t2.time ==> r1.nextRun < r2.nextRun
  {
  }

  /** The queue has the message, whatever its call reported. */
  predicate MessageWasQueued(o: ScheduleOutcome) {
    o.Sent? || (o.SendFailed? && o.sent)
  }

  /** The table has the run, whatever its call reported. */
  predicate RunWasStored(o: ScheduleOutcome) {
    o.RunStored? || (o.RunFailed? && o.stored)
  }

  class ScheduledTask {
    const lib: Lib

    // The identity of the task
    const tenantId: string
    const serviceId: string
    const consignmentId: string
    const messageId: string
    const messageType: string
    const deviceId: string
    const payload: Option<Bytes>
    var taskId: string
    var status: Option<Status>

    // The schedule of the task
    var unit: Unit
    var interval: int
    var duration: int
    var runAt: seq<int>
    var weekdays: seq<Weekday>
    var monthDays: seq<int>
    var startAt: Option<Instant>
    var startImmediately: bool

    // Nil in a task whose device id did not parse
    const scheduleInfo: Option<RunInfo>
    var error: Option<Error>

    ghost function View(): Plan
      reads this
    {
      Plan(unit, interval, duration, runAt, weekdays, monthDays, startAt, startImmediately, error)
    }

    /** Run information is missing only next to a recorded error. */
    ghost predicate Valid()
      reads this
    {
      PlanInv(View()) && (if scheduleInfo.None? then error.Some? else scheduleInfo.value.device == deviceId)
    }

    /** `NewScheduledTask` */
    constructor (lib: Lib, deviceId: string, request: Request)
      ensures Valid() && this.lib == lib
      ensures View() == if DeviceUuid(lib, deviceId).Some? then FRESH else Raise(FRESH, BAD_UUID)
      ensures scheduleInfo.Some? <==> DeviceUuid(lib, deviceId).Some?
      ensures DeviceUuid(lib, deviceId).Some? ==> this.deviceId == DeviceUuid(lib, deviceId).value
      ensures tenantId == request.tenantId && consignmentId == request.consignmentId && payload == request.payload
      ensures scheduleInfo.Some? ==> serviceId == request.serviceId && messageId == request.messageId &&
                                     messageType == request.messageType
      ensures scheduleInfo.None? ==> serviceId == "" && messageId == "" && messageType == "" && this.deviceId == ""
    {
      this.lib := lib;
      this.tenantId := request.tenantId;
      this.consignmentId := request.consignmentId;
      this.payload := request.payload;
      taskId, status := "", None;
      unit, interval, duration, runAt := Unset, 0, 0, [];
      weekdays, monthDays, startAt, startImmediately := [], [], None, false;
      match DeviceUuid(lib, deviceId) {
        case None =>
          this.deviceId, this.serviceId, this.messageType, this.messageId := "", "", "", "";
          scheduleInfo := None;
          error := Some(WrapOrError(None, BAD_UUID));
        case Some(id) =>
          this.deviceId := id;
          this.serviceId := request.serviceId;
          this.messageType := request.messageType;
          this.messageId := request.messageId;
          scheduleInfo := Some(RunInfo(id));
          error := None;
      }
    }

    method Record(err: Error)
      modifies `error
      ensures View() == Raise(old(View()), err)
    {
      error := Some(WrapOrError(error, err));
    }

    method SetSchedulingUnit(u: Unit)
      modifies `unit, `error
      ensures View() == Choose(old(View()), u)
    {
      var currentUnit := unit;
      if currentUnit == Duration || currentUnit == Crontab {
        Record(Plain(ErrInvalidIntervalUnitsSelection));
        return;
      }
      unit := u;
    }

    // --- Run times --------------------------------------------------------------------

    method AddRunAtTime(t: int)
      requires StrictlyIncreasing(runAt)
      modifies `runAt
      ensures runAt == Insert(old(runAt), t)
      ensures StrictlyIncreasing(runAt)
    {
      InsertIntoSorted(runAt, t);
      if |runAt| == 0 {
        runAt := runAt + [t];
        return;
      }
      var index, exist := Search(runAt, t);
      if exist {
        InsertPresent(runAt, t);
        return;
      }
      InsertAt(runAt, t, index);
      // append a zero, shift the tail up by one, then fill the hole
      runAt := runAt + [0];
      runAt := runAt[..index + 1] + runAt[index..|runAt| - 1];
      runAt := runAt[index := t];
    }

    /** `At` with a text */
    method AtTexts(text: string)
      requires StrictlyIncreasing(runAt)
      modifies `runAt, `error
      ensures View() == Do(lib, old(View()), Call.AtTexts(text))
    {
      AddTimes(Split(text, ';'));
    }

    /** The loop of `At`. */
    method AddTimes(pieces: seq<string>)
      requires StrictlyIncreasing(runAt)
      modifies `runAt, `error
      ensures runAt == InsertAll(old(runAt), TimesBeforeBad(pieces))
      ensures error == if AllTimes(pieces) then old(error)
                       else Some(WrapOrError(old(error), Plain(ErrUnsupportedTimeFormat)))
    {
      var i := 0;
      assert pieces[0..] == pieces;
      while i < |pieces|
        invariant 0 <= i <= |pieces|
        invariant error == old(error)
        invariant StrictlyIncreasing(runAt)
        invariant AllTimes(pieces) <==> AllTimes(pieces[i..])
        invariant InsertAll(runAt, TimesBeforeBad(pieces[i..])) == InsertAll(old(runAt), TimesBeforeBad(pieces))
      {
        NextTime(runAt, pieces[i..]);
        assert pieces[i..][0] == pieces[i] && pieces[i..][1..] == pieces[i + 1..];
        match ParseTime(pieces[i]) {
          case None =>
            Record(Plain(ErrUnsupportedTimeFormat));
            return;
          case Some(t) => AddRunAtTime(t);
        }
        i := i + 1;
      }
      assert pieces[i..] == [];
    }

    /** `At` with a time.Time */
    method AtTime(time: DayTime)
      requires StrictlyIncreasing(runAt)
      modifies `runAt
      ensures View() == Do(lib, old(View()), Call.AtTime(time))
    {
      AddRunAtTime(time);
    }

    /** `At` with anything else */
    method AtOther()
      modifies `error
      ensures View() == Do(lib, old(View()), Call.AtOther)
    {
      Record(Plain(ErrUnsupportedTimeFormat));
    }

    method Now(now: Instant)
      requires StrictlyIncreasing(runAt)
      modifies `unit, `error, `runAt
      ensures View() == Do(lib, old(View()), Call.Now(now))
    {
      SetSchedulingUnit(Once);
      AtTime(now.time);
    }

    method StartAt(t: Instant)
      modifies `startAt, `startImmediately
      ensures View() == Do(lib, old(View()), Call.StartAt(t))
    {
      startAt := Some(t);
      startImmediately := false;
    }

    // --- Periods ----------------------------------------------------------------------

    method Every(n: int)
      modifies `interval, `error
      ensures View() == Do(lib, old(View()), Call.Every(n))
    {
      interval := n;
      if n <= 0 {
        Record(Plain(ErrInvalidInterval));
      }
    }

    method EveryDuration(d: int)
      modifies `interval, `duration, `unit, `error
      ensures View() == Do(lib, old(View()), Call.EveryDuration(d))
    {
      interval := 0;
      duration := d;
      SetSchedulingUnit(Duration);
    }

    method EveryText(text: string)
      modifies `duration, `unit, `error
      ensures View() == Do(lib, old(View()), Call.EveryText(text))
    {
      var d := 0;
      match lib.duration(text) {
        case Failure(err) => Record(err);
        case Success(value) => d := value;
      }
      duration := d;
      SetSchedulingUnit(Duration);
    }

    method EveryOther()
      modifies `error
      ensures View() == Do(lib, old(View()), Call.EveryOther)
    {
      Record(Plain(ErrInvalidIntervalType));
    }

    /** An error of the cron parser takes the place of whatever was recorded before. */
    method Cron(expr: string, withSeconds: bool)
      modifies `unit, `startImmediately, `error
      ensures View() == Do(lib, old(View()), Call.Cron(expr, withSeconds))
    {
      var withLocation;
      if "TZ=" <= expr || "CRON_TZ=" <= expr {
        withLocation := expr;
      } else {
        withLocation := "CRON_TZ=" + UTC + " " + expr;
      }
      match lib.cron(withLocation, withSeconds) {
        case None =>
        case Some(err) => error := Some(WrapOrError(Some(err), Plain(ErrCronParseFailure)));
      }
      unit := Crontab;
      startImmediately := false;
    }

    // --- Days -------------------------------------------------------------------------

    method Months(days: seq<int>)
      modifies `monthDays, `startImmediately, `unit, `error
      ensures View() == Do(lib, old(View()), OnMonthDays(days))
    {
      FoldOne(error, Plain(ErrInvalidDayOfMonthEntry));
      if |days| == 0 {
        Record(Plain(ErrInvalidDayOfMonthEntry));
      } else if |days| == 1 {
        var day := days[0];
        if day != -1 && (day < 1 || day > 28) {
          Record(Plain(ErrInvalidDayOfMonthEntry));
        }
      } else {
        CheckMonthDays(days);
      }
      monthDays := monthDays + days;
      startImmediately := false;
      SetSchedulingUnit(Unit.Months);
    }

    /** The loop of `Months` over two or more days. A day that is stored already does not
        end it; a day out of range and a repeated one do. */
    method CheckMonthDays(days: seq<int>)
      modifies `error
      ensures error == FoldFrom(old(error), LoopErrors(monthDays, {}, days))
    {
      var repeat: set<int> := {};
      var i := 0;
      while i < |days|
        invariant 0 <= i <= |days|
        invariant FoldFrom(error, LoopErrors(monthDays, repeat, days[i..])) ==
                  FoldFrom(old(error), LoopErrors(monthDays, {}, days))
      {
        var day := days[i];
        assert days[i..][0] == day && days[i..][1..] == days[i + 1..];
        LoopErrorsStep(error, monthDays, repeat, days[i..]);
        if day < 1 || day > 28 {
          Record(Plain(ErrInvalidDayOfMonthEntry));
          return;
        }
        ReportStored(day);
        if day in repeat {
          Record(Plain(ErrInvalidDaysOfMonthDuplicateValue));
          return;
        }
        repeat := repeat + {day};
        i := i + 1;
      }
    }

    /** The inner loop: one error if the day is stored already. */
    method ReportStored(day: int)
      modifies `error
      ensures error == if day in monthDays
                       then Some(WrapOrError(old(error), Plain(ErrInvalidDaysOfMonthDuplicateValue)))
                       else old(error)
    {
      var j := 0;
      while j < |monthDays|
        invariant 0 <= j <= |monthDays| && day !in monthDays[..j]
        invariant error == old(error)
      {
        if monthDays[j] == day {
          Record(Plain(ErrInvalidDaysOfMonthDuplicateValue));
          break;
        }
        j := j + 1;
      }
    }

    method ParseDaysOfMonth(text: string) returns (days: Option<seq<int>>)
      modifies `error
      ensures days == ParseDays(text)
      ensures View() == if days.Some? then old(View()) else Raise(old(View()), NOT_AN_INTEGER)
    {
      var texts := Split(text, ',');
      var res: seq<int> := [];
      assert texts[0..] == texts;
      BehindNothing(ParseInts(texts));
      var i := 0;
      while i < |texts|
        invariant 0 <= i <= |texts|
        invariant error == old(error)
        invariant Behind(res, ParseInts(texts[i..])) == ParseInts(texts)
      {
        NextInt(res, texts[i..]);
        assert texts[i..][0] == texts[i] && texts[i..][1..] == texts[i + 1..];
        match Atoi(texts[i]) {
          case None =>
            Record(NOT_AN_INTEGER);
            return None;
          case Some(n) => res := res + [n];
        }
        i := i + 1;
      }
      assert texts[i..] == [] && res + [] == res;
      return Some(res);
    }

    /** `Weekday`; the source scans the list with a flag. */
    method OnWeekday(day: Weekday)
      modifies `weekdays, `startImmediately, `unit, `error
      ensures View() == Do(lib, old(View()), On(day))
    {
      var isScheduledDay := IsIn(weekdays, day);
      if !isScheduledDay {
        weekdays := weekdays + [day];
      }
      startImmediately := false;
      SetSchedulingUnit(Weeks);
    }

    method Midday()
      requires StrictlyIncreasing(runAt)
      modifies `runAt, `error
      ensures View() == Do(lib, old(View()), Call.AtTexts("12:00"))
    {
      AtTexts("12:00");
    }

    // --- The schedule text ------------------------------------------------------------

    /** One of the scheduling functions of the unit table. */
    method Apply(c: Call)
      requires c.In? || c.On? || c == Call.AtTexts("12:00")
      requires StrictlyIncreasing(runAt)
      modifies `weekdays, `startImmediately, `unit, `error, `runAt
      ensures View() == Do(lib, old(View()), c)
    {
      if c.In? {
        SetSchedulingUnit(c.unit);
      } else if c.On? {
        OnWeekday(c.weekday);
      } else {
        Midday();
      }
    }

    method ParseSchedule(text: string, first: Instant, second: Instant)
      requires Valid()
      modifies `unit, `interval, `duration, `runAt, `weekdays, `monthDays, `startAt, `startImmediately, `error
      ensures View() == Parse(lib, old(View()), text, first, second)
      ensures Valid()
    {
      ParseKeeps(lib, View(), text, first, second);
      if text == "" || Lower(text) == "now" {
        unit := Once;
        startAt := Some(first);
        startImmediately := true;
        Now(second);
        return;
      }
      var tokens := Split(text, ' ');
      if |tokens| < 2 {
        Record(Plain(ErrInvalidScheduleType));
        return;
      }
      var kind := Lower(tokens[0]);
      if kind == "every" {
        match Atoi(tokens[1]) {
          case Some(n) => Every(n);
          case None => EveryText(tokens[1]);
        }
        if |tokens| > 2 {
          var word := Lower(tokens[2]);
          if word == "monthdays" {
            if |tokens| < 4 {
              Record(Plain(ErrInvalidScheduleType));
              return;
            }
            var days := ParseDaysOfMonth(tokens[3]);
            match days {
              case Some(ds) => Months(ds);
              case None => Months([]);
            }
          } else {
            LookupGivesUnitCall(word);
            match Lookup(word) {
              case None =>
                Record(Plain(ErrInvalidSchedulingUnit));
                return;
              case Some(c) => Apply(c);
            }
          }
        }
      } else if kind == "at" {
        AtTexts(tokens[1]);
      } else if kind == "cron" {
        Cron(tokens[1], true);
      } else {
        Record(Plain(ErrInvalidScheduleType));
      }
    }

    // --- Scheduling -------------------------------------------------------------------

    function TaskMeta(): Meta
    {
      Meta(tenantId, serviceId, consignmentId, messageId, messageType,
           if payload.Some? then payload.value else [])
    }

    function TaskKey(): Key
      reads this`taskId
    {
      Key(deviceId, taskId)
    }

    /** What `CreateTask` asks of the identity of a task, and `CreateConsignment` besides. */
    predicate Storable() {
      StorableTask() && consignmentId != ""
    }

    predicate StorableTask() {
      lib.uuid(tenantId) && payload.Some?
    }

    /** `CreateTask`: the task row, then, only if that went well, the consignment row. After a
        failure the ghost result tells how far it came. */
    method CreateTask(store: Store, a: nat, once: bool) returns (r: Result<(), Error>, ghost o: ScheduleOutcome)
      requires store.Valid() && store.Stage(a) == None
      modifies store, this`taskId, this`status
      ensures store.Valid()
      ensures r.Success? ==>
                Storable() && status == Some(Queued) &&
                store.Stage(a) == Some(ConsignmentStored(TaskKey(), TaskMeta(), once)) &&
                store.Steps(a) == Then(Then(old(store.Steps(a)), InsertTask(a, TaskKey(), TaskMeta(), once)),
                                       InsertConsignment(a))
      ensures r.Failure? ==>
                CreateFailsWell(store.failing, r.error, o) && store.Stage(a) == None &&
                store.Steps(a) == AfterSchedule(old(store.Steps(a)), a, TaskKey(), TaskMeta(), once, o)
      ensures r.Failure? && o.Refused? ==> unchanged(store)
    {
      if !lib.uuid(tenantId) || payload.None? {
        return Failure(Plain(ErrInvalidRequest)), Refused;
      }
      store.Interfere(a);
      var ok, stored, id := store.InsertTaskRow(a, deviceId, TaskMeta(), once);
      taskId, status := id, Some(Queued);
      store.Interfere(a);
      if !ok {
        if stored {
          store.Stop(a);
        }
        return Failure(Library("tasks")), TaskFailed(stored);
      }
      r, o := CreateConsignment(store, a, once);
    }

    /** `CreateConsignment`, for the task whose row was just stored. */
    method CreateConsignment(store: Store, a: nat, once: bool)
      returns (r: Result<(), Error>, ghost o: ScheduleOutcome)
      requires store.Valid() && store.Stage(a) == Some(TaskStored(TaskKey(), TaskMeta(), once)) && StorableTask()
      modifies store
      ensures store.Valid()
      ensures r.Success? ==>
                Storable() && store.Stage(a) == Some(ConsignmentStored(TaskKey(), TaskMeta(), once)) &&
                store.Steps(a) == Then(old(store.Steps(a)), InsertConsignment(a))
      ensures r.Failure? ==>
                (o.NoConsignmentId? || o.ConsignmentFailed?) && CreateFailsWell(store.failing, r.error, o) &&
                store.Stage(a) == None && store.Steps(a) == AfterTaskRow(old(store.Steps(a)), a, o)
    {
      if consignmentId == "" {
        store.Stop(a);
        return Failure(Plain(ErrInvalidRequest)), NoConsignmentId;
      }
      var ok, stored := store.InsertConsignmentRow(a, TaskKey(), TaskMeta(), once);
      store.Interfere(a);
      if !ok {
        store.Stop(a);
        return Failure(Library("consignments")), ConsignmentFailed(stored);
      }
      r, o := Success(()), *;
    }

    /** The error tells what was missing, or which insert failed. */
    predicate CreateFailsWell(failing: set<Operation>, error: Error, o: ScheduleOutcome) {
      match o
      case Refused => !StorableTask() && error == Plain(ErrInvalidRequest)
      case NoConsignmentId => StorableTask() && consignmentId == "" && error == Plain(ErrInvalidRequest)
      case TaskFailed(_) => StorableTask() && InsertTaskCall in failing && error == Library("tasks")
      case ConsignmentFailed(_) => Storable() && InsertConsignmentCall in failing && error == Library("consignments")
      case _ => false
    }

    /** The checks of `Schedule` before it touches anything. */
    method CheckPlan()
      modifies `error
      ensures View() == Checked(old(View()))
    {
      if |weekdays| != 0 && unit != Weeks {
        Record(Plain(ErrWeekdayNotSupported));
      }
      if unit != Crontab && interval == 0 {
        if unit != Duration && unit != Once {
          Record(Plain(ErrInvalidInterval));
        }
      }
    }

    /** The last step of `Schedule`: a dispatch message for a task that runs once, or the
        first run of any other. */
    method HandOver(store: Store, a: nat, now: Instant) returns (ok: bool, ghost o: ScheduleOutcome)
      requires store.Valid() && store.Stage(a) == Some(ConsignmentStored(TaskKey(), TaskMeta(), unit == Once))
      requires scheduleInfo.Some? && scheduleInfo.value.device == deviceId
      modifies store
      ensures store.Valid() && store.Stage(a) == None
      ensures HandsOver(o, now) && store.Steps(a) == AfterHandOver(old(store.Steps(a)), a, o)
      ensures ok <==> Succeeded(o)
      ensures HandOverFailsWell(store.failing, o)
      ensures MessageWasQueued(o) ==>
                o.mid in store.accepted && CarriesTask(store.accepted[o.mid], TaskKey(), TaskMeta())
      ensures RunWasStored(o) ==> o.runKey in store.runs && store.runs[o.runKey] == TaskKey()
    {
      if unit == Once {
        var encoded := store.Encode(a);
        if !encoded {
          store.Stop(a);
          return false, NotEncoded;
        }
        var sent, mid;
        ok, sent, mid := store.SendDispatchMessage(a, TaskKey(), TaskMeta());
        o := if ok then Sent(mid) else SendFailed(mid, sent);
      } else {
        var k := Key(scheduleInfo.value.device, taskId);
        var stored;
        ok, stored := store.InsertRunRow(a, k, TaskMeta(), RunKeyAt(now));
        o := if ok then RunStored(RunKeyAt(now)) else RunFailed(RunKeyAt(now), stored);
      }
    }

    /** A message for a task that runs once, a run of this instant for any other. */
    predicate HandsOver(o: ScheduleOutcome, now: Instant)
      reads this`unit
    {
      IsHandOver(o) &&
      if unit == Once then o.NotEncoded? || o.SendFailed? || o.Sent?
      else (o.RunFailed? || o.RunStored?) && IsRunAt(o.runKey, now)
    }

    predicate HandOverFailsWell(failing: set<Operation>, o: ScheduleOutcome) {
      (o.NotEncoded? ==> EncodeCall in failing) && (o.SendFailed? ==> EnqueueCall in failing) &&
      (o.RunFailed? ==> InsertRunCall in failing)
    }

    /** The rest of `Schedule`, once the checks have passed. */
    method Submit(store: Store, a: nat, now: Instant) returns (r: Result<(), Error>, ghost o: ScheduleOutcome)
      requires store.Valid() && store.Stage(a) == None
      requires scheduleInfo.Some? && scheduleInfo.value.device == deviceId
      modifies store, this`taskId, this`status
      ensures store.Valid() && store.Stage(a) == None
      ensures store.Steps(a) == AfterSchedule(old(store.Steps(a)), a, TaskKey(), TaskMeta(), unit == Once, o)
      ensures o.Refused? <==> !StorableTask()
      ensures o.Refused? ==> unchanged(store)
      ensures r.Success? <==> Succeeded(o)
      ensures r.Success? ==> status == Some(Queued)
      ensures r.Failure? && !IsHandOver(o) ==> CreateFailsWell(store.failing, r.error, o)
      ensures IsHandOver(o) ==> Storable() && HandsOver(o, now) && HandOverFailsWell(store.failing, o)
      ensures MessageWasQueued(o) ==>
                o.mid in store.accepted && CarriesTask(store.accepted[o.mid], TaskKey(), TaskMeta())
      ensures RunWasStored(o) ==> o.runKey in store.runs && store.runs[o.runKey] == TaskKey()
    {
      var created;
      created, o := CreateTask(store, a, unit == Once);
      if created.Failure? {
        return created, o;
      }
      store.Interfere(a);
      var ok;
      ok, o := HandOver(store, a, now);
      return if ok then Success(()) else Failure(Library("queue or runs")), o;
    }

    /** `Schedule`: the checks, the two rows, and the hand-over. */
    method Schedule(store: Store, a: nat, now: Instant) returns (r: Result<(), Error>, ghost o: ScheduleOutcome)
      requires Valid() && store.Valid() && store.Stage(a) == None
      modifies store, this`taskId, this`status, this`error
      ensures store.Valid() && store.Stage(a) == None
      ensures store.Steps(a) == AfterSchedule(old(store.Steps(a)), a, TaskKey(), TaskMeta(), unit == Once, o)
      ensures o.Refused? <==> !Schedulable(old(View())) || !StorableTask()
      ensures o.Refused? ==> unchanged(store)
      ensures Schedulable(old(View())) && (!lib.uuid(tenantId) || payload.None?) ==>
                r == Failure(Plain(ErrInvalidRequest)) && unchanged(store)
      ensures consignmentId == "" ==> r.Failure?
      ensures r.Success? <==> Succeeded(o)
      ensures r.Success? ==> status == Some(Queued)
      ensures !Schedulable(old(View())) ==> r.Failure? && Some(r.error) == Checked(old(View())).error
      ensures Schedulable(old(View())) && r.Failure? && !IsHandOver(o) ==>
                CreateFailsWell(store.failing, r.error, o)
      ensures IsHandOver(o) ==> Storable() && HandsOver(o, now) && HandOverFailsWell(store.failing, o)
      ensures scheduleInfo.None? ==> o.Refused?
      ensures payload.Some? ==>
                TaskMeta() == Meta(tenant := tenantId, service := serviceId, consignment := consignmentId,
                                   messageId := messageId, messageType := messageType, payload := payload.value)
      ensures MessageWasQueued(o) ==>
                o.mid in store.accepted && payload.Some? &&
                store.accepted[o.mid] ==
                Encoded(ServiceMessage(serviceId := serviceId, deviceId := deviceId, taskId := taskId,
                                       tenantId := tenantId, messageId := messageId, messageType := messageType,
                                       payload := payload.value))
      ensures RunWasStored(o) ==>
                IsRunAt(o.runKey, now) && o.runKey in store.runs && store.runs[o.runKey] == Key(deviceId, taskId)
      ensures store.Healthy() && Schedulable(old(View())) && Storable() ==> r.Success?
    {
      CheckedIffSchedulable(View());
      CheckPlan();
      if error.Some? {
        return Failure(error.value), Refused;
      }
      r, o := Submit(store, a, now);
    }
  }

  lemma LookupGivesUnitCall(word: string)
    ensures match Lookup(word) case None => true case Some(c) => c.In? || c.On? || c == Call.AtTexts("12:00")
  {
  }

  /** `in` */
  method IsIn(days: seq<Weekday>, day: Weekday) returns (found: bool)
    ensures found <==> day in days
  {
    found := false;
    var i := 0;
    while i < |days|
      invariant 0 <= i <= |days|
      invariant !found && day !in days[..i]
    {
      if days[i] == day {
        found := true;
        break;
      }
      i := i + 1;
    }
  }

  /** One piece of a list of times. */
  lemma NextTime(runAt: seq<int>, pieces: seq<string>)
    requires pieces != []
    ensures ParseTime(pieces[0]).None? ==> TimesBeforeBad(pieces) == [] && !AllTimes(pieces)
    ensures ParseTime(pieces[0]).Some? ==>
              InsertAll(runAt, TimesBeforeBad(pieces)) ==
              InsertAll(Insert(runAt, ParseTime(pieces[0]).value), TimesBeforeBad(pieces[1..])) &&
              (AllTimes(pieces) <==> AllTimes(pieces[1..]))
  {
    assert pieces == [pieces[0]] + pieces[1..];
    if ParseTime(pieces[0]).Some? {
      var t, rest := ParseTime(pieces[0]).value, TimesBeforeBad(pieces[1..]);
      assert TimesBeforeBad(pieces) == [t] + rest;
      assert ([t] + rest)[1..] == rest;
    }
  }

  /** The integers read so far, with those still to come. */
  function Behind(res: seq<int>, rest: Option<seq<int>>): Option<seq<int>> {
    match rest
    case None => None
    case Some(ns) => Some(res + ns)
  }

  lemma BehindNothing(r: Option<seq<int>>)
    ensures Behind([], r) == r
  {
    assert r.Some? ==> [] + r.value == r.value;
  }

  lemma NextInt(res: seq<int>, texts: seq<string>)
    requires texts != []
    ensures Behind(res, ParseInts(texts)) ==
            if Atoi(texts[0]).Some? then Behind(res + [Atoi(texts[0]).value], ParseInts(texts[1..])) else None
  {
    if Atoi(texts[0]).Some? && ParseInts(texts[1..]).Some? {
      var n, ns := Atoi(texts[0]).value, ParseInts(texts[1..]).value;
      assert res + ([n] + ns) == (res + [n]) + ns;
    }
  }

  /** Parsing a text is a sequence of builder calls, but for the direct write of the unit
      by an empty text or "now". */
  lemma ParseKeeps(lib: Lib, p: Plan, text: string, first: Instant, second: Instant)
    requires PlanInv(p)
    ensures PlanInv(Parse(lib, p, text, first, second))
    ensures p.error.Some? ==> Parse(lib, p, text, first, second).error.Some?
  {
    if text == "" || Lower(text) == "now" {
      DoKeeps(lib, p.(unit := Once, startAt := Some(first), immediately := true), Call.Now(second));
    } else {
      var tokens := Split(text, ' ');
      if |tokens| >= 2 {
        var q := Do(lib, p, PeriodCall(tokens[1]));
        DoKeeps(lib, p, PeriodCall(tokens[1]));
        DoKeeps(lib, p, Call.AtTexts(tokens[1]));
        DoKeeps(lib, p, Call.Cron(tokens[1], true));
        if |tokens| > 2 {
          QualifyKeeps(lib, q, tokens);
        }
      }
    }
  }

  lemma QualifyKeeps(lib: Lib, p: Plan, tokens: seq<string>)
    requires PlanInv(p) && |tokens| > 2
    ensures PlanInv(Qualify(lib, p, tokens))
    ensures p.error.Some? ==> Qualify(lib, p, tokens).error.Some?
  {
    var word := Lower(tokens[2]);
    if Lookup(word).Some? {
      DoKeeps(lib, p, Lookup(word).value);
    }
    if |tokens| >= 4 && ParseDays(tokens[3]).Some? {
      DoKeeps(lib, p, OnMonthDays(ParseDays(tokens[3]).value));
    }
    DoKeeps(lib, Raise(p, NOT_AN_INTEGER), OnMonthDays([]));
  }
}
