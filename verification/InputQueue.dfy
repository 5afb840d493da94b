/** The watcher that handles the messages of the input queue. */
module InputQueue {
  import opened Wrappers
  import opened Errors
  import opened Plans
  import opened ServiceDispatch
  import opened Traces
  import opened Stores
  import opened ScheduledTasks
  import opened RequestHandling
  import opened InputLogs

  /** What one call of the watcher did. A message is deleted whether or not its request was
      accepted; `gone` tells whether the deletion had its effect. */
  datatype InputOutcome =
    | Nothing
    | NotTaken
    | LostItem(mid: nat)
    | Bad(mid: nat, gone: bool)
    | Answered(mid: nat, request: Request, result: Result<Reply, Error>, gone: bool)

  /** `t`, and then the events of a call with this outcome. */
  function AfterMessage(t: Log, a: nat, o: InputOutcome): Log {
    match o
    case Nothing => Plus(t, SawNothing(a))
    case NotTaken => Plus(t, TakeFailed(a))
    case LostItem(m) => Plus(Plus(t, Took(a, m)), TakeFailed(a))
    case Bad(m, gone) => Plus(Plus(t, Took(a, m)), Disposed(a, m, gone))
    case Answered(m, request, result, gone) => AfterReply(Plus(t, Took(a, m)), a, m, request, result, gone)
  }

  function AfterReply(took: Log, a: nat, m: nat, request: Request, result: Result<Reply, Error>, gone: bool): Log {
    Plus(Plus(took, Replied(a, m, request, result)), Disposed(a, m, gone))
  }

  /** The answer to an event, and the steps taken for it. */
  ghost predicate AnswersWell(lib: Lib, registered: set<string>, request: Request, healthy: bool,
                              before: Trace, after: Trace, a: nat, hs: seq<Handled>, result: Result<Reply, Error>) {
    match result
    case Success(reply) =>
      Admissible(lib, registered, request, EVENT) &&
      RepliesWell(lib, request, EVENT, healthy, before, after, a, hs, reply)
    case Failure(e) =>
      !Admissible(lib, registered, request, EVENT) && e == Plain(ErrInvalidRequest) && after == before
  }

  /** From `q` to `r` message `mid` has been hidden, and nothing else has changed. */
  predicate HidesItem(q: map<nat, Item>, mid: nat, r: map<nat, Item>) {
    mid in q && q[mid].visible && r == q[mid := Item(q[mid].body, false)]
  }

  predicate NoneVisible(q: map<nat, Item>) {
    forall m | m in q :: !q[m].visible
  }

  class InputWatcher {
    const decode: Decoder
    const healthy: bool

    var queue: map<nat, Item>

    /** The whole state of the step system, and what led to it. */
    ghost var model: InputState
    ghost var log: Log

    ghost predicate Valid()
      reads this
    {
      Replayed(decode, log) == Some(model) && queue == model.queue
    }

    /** What watcher `a` has done. */
    ghost function Own(a: nat): Log
      reads this`log
    {
      OwnLog(log, a)
    }

    /** What watcher `a` holds. */
    ghost function Held(a: nat): Option<Holding>
      reads this`model
    {
      HeldOf(model, a)
    }

    constructor (decode: Decoder, healthy: bool)
      ensures Valid() && this.decode == decode && this.healthy == healthy && log == Opened && model == NOTHING_SENT
    {
      this.decode, this.healthy := decode, healthy;
      queue, model, log := map[], NOTHING_SENT, Opened;
    }

    /** One more event. */
    ghost method Record(e: Event)
      requires Replayed(decode, log) == Some(model) && InputStep(decode, model, e).Some?
      modifies `model, `log
      ensures Replayed(decode, log) == Some(model) && InputGrows(old(model), model)
      ensures Some(model) == InputStep(decode, old(model), e) && log == Plus(old(log), e)
    {
      EveryLogKeeps(decode, log);
      InputStepKeeps(decode, model, e);
      log, model := Plus(log, e), InputStep(decode, model, e).value;
    }

    /** A service sends a message. */
    method Send(mid: nat, body: string)
      requires Valid() && mid !in model.accepted
      modifies this
      ensures Valid() && log == Plus(old(log), Posted(mid, body))
      ensures queue == old(queue)[mid := Item(body, true)]
    {
      queue := queue[mid := Item(body, true)];
      Record(Posted(mid, body));
    }

    /** The visibility timeout of a message runs out. */
    method Redeliver(mid: nat)
      requires Valid() && mid in queue
      modifies this
      ensures Valid() && log == Plus(old(log), TimedOut(mid))
      ensures queue == old(queue)[mid := Item(old(queue)[mid].body, true)]
    {
      queue := queue[mid := Item(queue[mid].body, true)];
      Record(TimedOut(mid));
    }

    /** Any number of events of anybody else. The method itself does nothing: a caller can
        count on its contract only, and that promises no more than `OthersLeaveHeld` proves. */
    method Interfere(a: nat)
      requires Valid()
      modifies this
      ensures Valid() && Own(a) == old(Own(a)) && Held(a) == old(Held(a)) && InputGrows(old(model), model)
    {
    }

    method Hide(a: nat, mid: nat) returns (body: string)
      requires Valid() && mid in queue && queue[mid].visible
      modifies this
      ensures Valid() && InputGrows(old(model), model)
      ensures HidesItem(old(queue), mid, queue) && queue[mid].body == body
      ensures mid in model.accepted && model.accepted[mid] == body
      ensures Own(a) == Plus(old(Own(a)), Took(a, mid)) && Held(a) == Some(Holding(mid, decode(body).None?))
    {
      body := queue[mid].body;
      queue := queue[mid := Item(body, false)];
      EveryLogKeeps(decode, log);
      Record(Took(a, mid));
    }

    /** Without a message the outcome tells why. */
    method Receive(a: nat) returns (r: Option<(nat, string)>, ghost o: InputOutcome)
      requires Valid()
      modifies this
      ensures Valid() && InputGrows(old(model), model)
      ensures r.None? ==>
                (o.Nothing? || o.NotTaken? || o.LostItem?) && Own(a) == AfterMessage(old(Own(a)), a, o) &&
                (if o.LostItem? then HidesItem(old(queue), o.mid, queue) else queue == old(queue)) &&
                (o.Nothing? ==> NoneVisible(queue)) && (healthy ==> o.Nothing?)
      ensures r.Some? ==>
                var (mid, body) := r.value;
                HidesItem(old(queue), mid, queue) && queue[mid].body == body &&
                mid in model.accepted && model.accepted[mid] == body &&
                Own(a) == Plus(old(Own(a)), Took(a, mid)) && Held(a) == Some(Holding(mid, decode(body).None?))
    {
      var fault, reported: bool := *, *;
      if fault && !healthy {
        Record(TakeFailed(a));
        return None, NotTaken;
      }
      var visible := set m | m in queue && queue[m].visible;
      if visible == {} {
        assert forall m | m in queue && queue[m].visible :: m in visible;
        Record(SawNothing(a));
        return None, Nothing;
      }
      var mid: nat :| mid in visible;
      var body := Hide(a, mid);
      if !reported && !healthy {
        Record(TakeFailed(a));
        return None, LostItem(mid);
      }
      return Some((mid, body)), Nothing;
    }

    /** Deletes a message; a failure is only logged. */
    method Dispose(a: nat, mid: nat) returns (gone: bool)
      requires Valid() && Held(a) == Some(Holding(mid, true))
      modifies this
      ensures Valid() && InputGrows(old(model), model) && Own(a) == Plus(old(Own(a)), Disposed(a, mid, gone))
      ensures queue == if gone then old(queue) - {mid} else old(queue)
      ensures healthy ==> gone
    {
      gone := *;
      gone := gone || healthy;
      if gone {
        queue := queue - {mid};
      }
      Record(Disposed(a, mid, gone));
    }

    /** `processSchedulerInputQueueMessage`: receive, decode, handle, and delete whatever the
        handler answered. The ghost results are the message received, and what became of its
        device ids. */
    method ProcessMessage(lib: Lib, services: Dispatcher, store: Store, a: nat, clock: nat -> Instant)
      returns (ghost o: InputOutcome, ghost got: Option<(nat, string)>, ghost hs: seq<Handled>)
      requires Valid() && store.Valid() && store.Stage(a) == None
      modifies this, store
      ensures Valid() && InputGrows(old(model), model) && store.Valid() && store.Stage(a) == None
      ensures Own(a) == AfterMessage(old(Own(a)), a, o)
      ensures got.Some? ==> got.value.0 in model.accepted && model.accepted[got.value.0] == got.value.1
      ensures match got
              case None =>
                (o.Nothing? || o.NotTaken? || o.LostItem?) && store.Steps(a) == old(store.Steps(a)) &&
                (o.Nothing? ==> NoneVisible(queue)) && (healthy ==> o.Nothing?)
              case Some((mid, body)) =>
                match decode(body)
                case None => o.Bad? && o.mid == mid && store.Steps(a) == old(store.Steps(a))
                case Some(request) =>
                  o.Answered? && o.mid == mid && o.request == request &&
                  AnswersWell(lib, services.serviceConfigTable.Keys, request, store.Healthy(),
                              old(store.Steps(a)), store.Steps(a), a, hs, o.result)
      ensures got.Some? && healthy ==> o.gone
      ensures got.Some? && o.gone ==> got.value.0 !in queue
    {
      hs := [];
      Interfere(a);
      var received;
      received, o := Receive(a);
      got := received;
      if received.None? {
        return;
      }
      var (mid, body) := received.value;
      Interfere(a);
      match decode(body) {
        case None =>
          var gone := Dispose(a, mid);
          o := Bad(mid, gone);
        case Some(request) =>
          o, hs := Answer(lib, services, store, a, clock, mid, request);
      }
    }

    /** From the receipt of a decoded request to its removal. */
    method Answer(lib: Lib, services: Dispatcher, store: Store, a: nat, clock: nat -> Instant,
                  mid: nat, request: Request)
      returns (o: InputOutcome, ghost hs: seq<Handled>)
      requires Valid() && Held(a) == Some(Holding(mid, false))
      requires mid in model.accepted && decode(model.accepted[mid]) == Some(request)
      requires store.Valid() && store.Stage(a) == None
      modifies this, store
      ensures Valid() && InputGrows(old(model), model) && store.Valid() && store.Stage(a) == None
      ensures o.Answered? && o.mid == mid && o.request == request
      ensures (healthy ==> o.gone) && (o.gone ==> mid !in queue)
      ensures Own(a) == AfterReply(old(Own(a)), a, mid, request, o.result, o.gone)
      ensures AnswersWell(lib, services.serviceConfigTable.Keys, request, store.Healthy(),
                          old(store.Steps(a)), store.Steps(a), a, hs, o.result)
    {
      var result, _, outcomes := HandleRequest(lib, services, store, a, request, EVENT, clock);
      hs := outcomes;
      Interfere(a);
      Record(Replied(a, mid, request, result));
      Interfere(a);
      var gone := Dispose(a, mid);
      o := Answered(mid, request, result, gone);
    }
  }
}
