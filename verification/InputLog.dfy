/** The queue on which services ask for tasks, as a step system: what services, the visibility
    timeout and the watchers of the queue do, one event at a time. */
module InputLogs {
  import opened Wrappers
  import opened Errors
  import opened ScheduledTasks
  import opened RequestHandling

  datatype Item = Item(body: string, visible: bool)

  /** Watcher `actor` takes a message and hides it, or learns that it cannot; it is answered
      by the request handler; it tries to delete the message it holds. */
  datatype Event =
    | Posted(mid: nat, body: string)
    | TimedOut(mid: nat)
    | Took(actor: nat, mid: nat)
    | SawNothing(actor: nat)
    | TakeFailed(actor: nat)
    | Replied(actor: nat, mid: nat, request: Request, result: Result<Reply, Error>)
    | Disposed(actor: nat, mid: nat, gone: bool)

  /** Latest event last. */
  datatype Log = Opened | Plus(before: Log, last: Event)

  /** The message a watcher holds, and whether nothing remains but to delete it. */
  datatype Holding = Holding(mid: nat, finished: bool)

  /** `accepted` and `answered` only grow: every message ever sent, and those given to the
      request handler. */
  datatype InputState = InputState(
    queue: map<nat, Item>, held: map<nat, Holding>, accepted: map<nat, string>, answered: set<nat>)

  const NOTHING_SENT := InputState(map[], map[], map[], {})

  /** The base64 and protobuf decoders; None when either of them fails. */
  type Decoder = string -> Option<Request>

  function InputStep(decode: Decoder, s: InputState, e: Event): Option<InputState> {
    match e
    case Posted(m, body) =>
      if m in s.accepted then None
      else Some(s.(queue := s.queue[m := Item(body, true)], accepted := s.accepted[m := body]))
    case TimedOut(m) =>
      if m !in s.queue then None else Some(s.(queue := s.queue[m := Item(s.queue[m].body, true)]))
    case Took(a, m) =>
      if m !in s.queue || !s.queue[m].visible then None
      else
        var body := s.queue[m].body;
        Some(s.(queue := s.queue[m := Item(body, false)], held := s.held[a := Holding(m, decode(body).None?)]))
    case SawNothing(a) =>
      if exists m | m in s.queue :: s.queue[m].visible then None else Some(s.(held := s.held - {a}))
    case TakeFailed(a) => Some(s.(held := s.held - {a}))
    case Replied(a, m, request, _) =>
      if a !in s.held || s.held[a] != Holding(m, false) || m !in s.accepted ||
         decode(s.accepted[m]) != Some(request) then None
      else Some(s.(held := s.held[a := Holding(m, true)], answered := s.answered + {m}))
    case Disposed(a, m, gone) =>
      if a !in s.held || s.held[a] != Holding(m, true) then None
      else Some(s.(queue := if gone then s.queue - {m} else s.queue, held := s.held - {a}))
  }

  function Replayed(decode: Decoder, log: Log): Option<InputState> {
    match log
    case Opened => Some(NOTHING_SENT)
    case Plus(before, e) =>
      match Replayed(decode, before)
      case None => None
      case Some(s) => InputStep(decode, s, e)
  }

  predicate IsOf(e: Event, a: nat) {
    match e
    case Posted(_, _) => false
    case TimedOut(_) => false
    case _ => e.actor == a
  }

  /** The events of one watcher. */
  function OwnLog(log: Log, a: nat): Log {
    match log
    case Opened => Opened
    case Plus(before, e) => if IsOf(e, a) then Plus(OwnLog(before, a), e) else OwnLog(before, a)
  }

  // --- What every run keeps -----------------------------------------------------------

  predicate Waiting(s: InputState, decode: Decoder, m: nat) {
    m in s.queue || m in s.answered || (m in s.accepted && decode(s.accepted[m]).None?)
  }

  /** A message that decodes leaves the queue only after it was answered. */
  ghost predicate InputInv(decode: Decoder, s: InputState) {
    (forall m | m in s.queue :: m in s.accepted && s.queue[m].body == s.accepted[m]) &&
    (forall m | m in s.accepted :: Waiting(s, decode, m)) &&
    (forall m | m in s.answered :: m in s.accepted && decode(s.accepted[m]).Some?) &&
    (forall a | a in s.held :: s.held[a].mid in s.accepted &&
       (s.held[a].finished ==> s.held[a].mid in s.answered || decode(s.accepted[s.held[a].mid]).None?))
  }

  predicate InputGrows(s: InputState, t: InputState) {
    (forall m | m in s.accepted :: m in t.accepted && t.accepted[m] == s.accepted[m]) && s.answered <= t.answered
  }

  lemma InputStepKeeps(decode: Decoder, s: InputState, e: Event)
    requires InputInv(decode, s) && InputStep(decode, s, e).Some?
    ensures InputInv(decode, InputStep(decode, s, e).value)
    ensures InputGrows(s, InputStep(decode, s, e).value)
  {
    var t := InputStep(decode, s, e).value;
    forall m | m in t.accepted ensures Waiting(t, decode, m) {
      assert m in s.accepted ==> Waiting(s, decode, m);
    }
  }

  lemma {:induction false} EveryLogKeeps(decode: Decoder, log: Log)
    requires Replayed(decode, log).Some?
    ensures InputInv(decode, Replayed(decode, log).value)
  {
    if log.Plus? {
      EveryLogKeeps(decode, log.before);
      InputStepKeeps(decode, Replayed(decode, log.before).value, log.last);
    }
  }

  /** What a watcher holds tells what it did last. */
  predicate HeldBy(decode: Decoder, s: InputState, a: nat, own: Log) {
    a in s.held && s.held[a].mid in s.accepted ==>
      var h, request := s.held[a], decode(s.accepted[s.held[a].mid]);
      if h.finished && request.Some?
      then EndsInReply(own, a, h.mid, request.value)
      else own.Plus? && own.last == Took(a, h.mid)
  }

  /** The last two events are the taking of message `m` and the answer to its request. */
  predicate EndsInReply(own: Log, a: nat, m: nat, request: Request) {
    own.Plus? && own.last.Replied? && own.last == Replied(a, m, request, own.last.result) &&
    own.before.Plus? && own.before.last == Took(a, m)
  }

  lemma {:induction false} HeldTellsTheLog(decode: Decoder, log: Log, a: nat)
    requires Replayed(decode, log).Some?
    ensures HeldBy(decode, Replayed(decode, log).value, a, OwnLog(log, a))
  {
    if log.Plus? {
      HeldTellsTheLog(decode, log.before, a);
      EveryLogKeeps(decode, log.before);
      HeldAfterEvent(decode, Replayed(decode, log.before).value, log.last, a, OwnLog(log.before, a));
    }
  }

  lemma HeldAfterEvent(decode: Decoder, s: InputState, e: Event, a: nat, own: Log)
    requires InputInv(decode, s) && InputStep(decode, s, e).Some? && HeldBy(decode, s, a, own)
    ensures HeldBy(decode, InputStep(decode, s, e).value, a, if IsOf(e, a) then Plus(own, e) else own)
  {
  }

  /** Whoever deletes a message took it and, if it decodes, gave its request to the handler,
      and did nothing else between; the answer makes no difference. One that does not decode
      is deleted without having been handled. */
  lemma DisposedOnlyAfterReply(decode: Decoder, log: Log, a: nat, m: nat, gone: bool)
    requires log.Plus? && log.last == Disposed(a, m, gone) && Replayed(decode, log).Some?
    ensures var s, own := Replayed(decode, log).value, OwnLog(log, a);
            m in s.accepted && own.Plus? && own.last == Disposed(a, m, gone) &&
            match decode(s.accepted[m])
            case Some(request) => EndsInReply(own.before, a, m, request)
            case None => m !in s.answered && own.before.Plus? && own.before.last == Took(a, m)
  {
    EveryLogKeeps(decode, log.before);
    EveryLogKeeps(decode, log);
    HeldTellsTheLog(decode, log.before, a);
  }

  /** A message is never lost: if it decodes, it waits in the queue or has been answered. */
  lemma InputAtLeastOnce(decode: Decoder, log: Log, m: nat)
    requires Replayed(decode, log).Some? && m in Replayed(decode, log).value.accepted
    requires decode(Replayed(decode, log).value.accepted[m]).Some?
    ensures m in Replayed(decode, log).value.queue || m in Replayed(decode, log).value.answered
  {
    EveryLogKeeps(decode, log);
    assert Waiting(Replayed(decode, log).value, decode, m);
  }

  // --- One holder at a time -----------------------------------------------------------

  predicate HiddenItem(s: InputState, m: nat) {
    m in s.accepted && (m in s.queue ==> !s.queue[m].visible)
  }

  lemma TakingHides(decode: Decoder, s: InputState, a: nat, m: nat)
    requires InputInv(decode, s) && InputStep(decode, s, Took(a, m)).Some?
    ensures !HiddenItem(s, m) && HiddenItem(InputStep(decode, s, Took(a, m)).value, m)
  {
  }

  lemma ItemStaysHidden(decode: Decoder, s: InputState, e: Event, m: nat)
    requires InputStep(decode, s, e).Some? && HiddenItem(s, m) && e != TimedOut(m)
    ensures HiddenItem(InputStep(decode, s, e).value, m)
  {
  }

  /** From `t` to `u`, the visibility timeout of the message has run out. */
  predicate TimedOutSince(t: Log, u: Log, m: nat) {
    u != t && u.Plus? && (u.last == TimedOut(m) || TimedOutSince(t, u.before, m))
  }

  predicate LogGrows(t: Log, u: Log) {
    t == u || (u.Plus? && LogGrows(t, u.before))
  }

  lemma {:induction false} HiddenUntilTimeout(decode: Decoder, t: Log, u: Log, a: nat, m: nat)
    requires LogGrows(t, u) && t.Plus? && t.last == Took(a, m) && Replayed(decode, u).Some?
    ensures TimedOutSince(t, u, m) || HiddenItem(Replayed(decode, u).value, m)
  {
    EveryLogKeeps(decode, u.before);
    if t == u {
      TakingHides(decode, Replayed(decode, u.before).value, a, m);
    } else {
      HiddenUntilTimeout(decode, t, u.before, a, m);
      if u.last != TimedOut(m) && HiddenItem(Replayed(decode, u.before).value, m) {
        ItemStaysHidden(decode, Replayed(decode, u.before).value, u.last, m);
      }
    }
  }

  /** After a watcher took a message, nobody takes it again before its visibility timeout
      has run out. */
  lemma OneHolderAtATime(decode: Decoder, t: Log, u: Log, a: nat, b: nat, m: nat)
    requires LogGrows(t, u) && t.Plus? && t.last == Took(a, m) && Replayed(decode, Plus(u, Took(b, m))).Some?
    ensures TimedOutSince(t, u, m)
  {
    HiddenUntilTimeout(decode, t, u, a, m);
    EveryLogKeeps(decode, u);
    TakingHides(decode, Replayed(decode, u).value, b, m);
  }

  // --- What others do -----------------------------------------------------------------

  predicate OnlyOtherWatchers(t: Log, u: Log, a: nat) {
    t == u || (u.Plus? && !IsOf(u.last, a) && OnlyOtherWatchers(t, u.before, a))
  }

  /** What a watcher can count on while others move. */
  lemma {:induction false} OthersLeaveHeld(decode: Decoder, t: Log, u: Log, a: nat)
    requires OnlyOtherWatchers(t, u, a) && Replayed(decode, u).Some?
    ensures Replayed(decode, t).Some? && OwnLog(u, a) == OwnLog(t, a)
    ensures HeldOf(Replayed(decode, u).value, a) == HeldOf(Replayed(decode, t).value, a)
    ensures InputGrows(Replayed(decode, t).value, Replayed(decode, u).value)
  {
    if t != u {
      OthersLeaveHeld(decode, t, u.before, a);
      EveryLogKeeps(decode, u.before);
      OthersLeaveHeldOnce(decode, Replayed(decode, u.before).value, u.last, a);
    }
  }

  lemma OthersLeaveHeldOnce(decode: Decoder, s: InputState, e: Event, a: nat)
    requires InputInv(decode, s) && InputStep(decode, s, e).Some? && !IsOf(e, a)
    ensures HeldOf(InputStep(decode, s, e).value, a) == HeldOf(s, a)
    ensures InputGrows(s, InputStep(decode, s, e).value)
  {
    InputStepKeeps(decode, s, e);
  }

  function HeldOf(s: InputState, a: nat): Option<Holding> {
    if a in s.held then Some(s.held[a]) else None
  }
}
