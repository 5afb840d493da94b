/** The schedule part of a task as a value, and what one builder call does to it. */
module Plans {
  import opened Wrappers
  import opened Text
  import opened Errors
  import opened RunTimes

  /** Functions of foreign libraries, left uninterpreted: whether a text is a UUID (the two
      libraries in use differ), the value of a duration text, and the error of a cron
      expression that does not parse (the flag asks for a seconds field). */
  datatype Lib = Lib(uuid: string -> bool, cqlUuid: string -> bool, duration: string -> Result<int, Error>,
                     cron: (string, bool) -> Option<Error>)

  /** The units of a schedule; `Unset` is the zero value of a task that was given none. */
  datatype Unit =
    | Unset | Once | Milliseconds | Seconds | Minutes | Hours | Days | Weeks | Months | Duration | Crontab

  datatype Weekday = Sunday | Monday | Tuesday | Wednesday | Thursday | Friday | Saturday

  /** An instant, as far as schedules look at it. */
  datatype Instant = Instant(day: int, time: DayTime)

  datatype Plan = Plan(
    unit: Unit, interval: int, duration: int,
    runAt: seq<int>, weekdays: seq<Weekday>, monthDays: seq<int>,
    startAt: Option<Instant>, immediately: bool,
    error: Option<Error>)

  const FRESH := Plan(Unset, 0, 0, [], [], [], None, false, None)

  /** A call of the builder. Where the source takes a value of any type, there is one
      constructor a type it handles, and one for all the others. */
  datatype Call =
    | Every(interval: int)
    | EveryDuration(d: int)
    | EveryText(text: string)
    | EveryOther
    | In(unit: Unit)                    // Milliseconds() .. Weeks()
    | OnMonthDays(days: seq<int>)
    | On(weekday: Weekday)
    | AtTexts(text: string)
    | AtTime(time: DayTime)
    | AtOther
    | Now(now: Instant)
    | StartAt(instant: Instant)
    | Cron(expr: string, withSeconds: bool)

  predicate Locked(u: Unit) {
    u == Duration || u == Crontab
  }

  function Raise(p: Plan, err: Error): Plan {
    p.(error := Some(WrapOrError(p.error, err)))
  }

  /** Choosing a unit fails once the unit is Duration or Crontab. */
  function Choose(p: Plan, u: Unit): Plan {
    if Locked(p.unit) then Raise(p, Plain(ErrInvalidIntervalUnitsSelection)) else p.(unit := u)
  }

  predicate IsMonthDay(d: int) {
    1 <= d <= 28
  }

  predicate Distinct<T(==)>(s: seq<T>) {
    forall i, j | 0 <= i < j < |s| :: s[i] != s[j]
  }

  /** The day lists `Months` takes without complaint, given the days stored before. */
  predicate MonthDaysOk(stored: seq<int>, days: seq<int>) {
    if |days| == 1 then days[0] == -1 || 1 <= days[0] <= 28
    else days != [] && Distinct(days) && forall d | d in days :: 1 <= d <= 28 && d !in stored
  }

  /** The errors of checking two or more days, when `seen` are those that came before. A day
      already stored is reported and the check goes on; the other two errors end it. */
  function LoopErrors(stored: seq<int>, seen: set<int>, days: seq<int>): seq<Error>
    decreases days
  {
    if days == [] then []
    else if !IsMonthDay(days[0]) then [Plain(ErrInvalidDayOfMonthEntry)]
    else (if days[0] in stored then [Plain(ErrInvalidDaysOfMonthDuplicateValue)] else []) +
         (if days[0] in seen then [Plain(ErrInvalidDaysOfMonthDuplicateValue)]
          else LoopErrors(stored, seen + {days[0]}, days[1..]))
  }

  /** One day of the check, started with some error recorded. */
  lemma LoopErrorsStep(start: Option<Error>, stored: seq<int>, seen: set<int>, days: seq<int>)
    requires days != []
    ensures var d, dup := days[0], Plain(ErrInvalidDaysOfMonthDuplicateValue);
            var mid := if d in stored then Some(WrapOrError(start, dup)) else start;
            FoldFrom(start, LoopErrors(stored, seen, days)) ==
            if !IsMonthDay(d) then Some(WrapOrError(start, Plain(ErrInvalidDayOfMonthEntry)))
            else if d in seen then Some(WrapOrError(mid, dup))
            else FoldFrom(mid, LoopErrors(stored, seen + {d}, days[1..]))
  {
    var d, dup := days[0], Plain(ErrInvalidDaysOfMonthDuplicateValue);
    FoldOne(start, Plain(ErrInvalidDayOfMonthEntry));
    FoldOne(start, dup);
    if IsMonthDay(d) {
      var first := if d in stored then [dup] else [];
      var later := if d in seen then [dup] else LoopErrors(stored, seen + {d}, days[1..]);
      FoldFromFold(start, first, later);
      FoldOne(FoldFrom(start, first), dup);
    }
  }

  function MonthDayErrors(stored: seq<int>, days: seq<int>): seq<Error> {
    if |days| >= 2 then LoopErrors(stored, {}, days)
    else if |days| == 1 && (days[0] == -1 || IsMonthDay(days[0])) then []
    else [Plain(ErrInvalidDayOfMonthEntry)]
  }

  /** `seen` and the days of the list are good days for a list of two or more. */
  predicate GoodDays(stored: seq<int>, seen: set<int>, days: seq<int>) {
    Distinct(days) && forall d | d in days :: IsMonthDay(d) && d !in stored && d !in seen
  }

  lemma DistinctCons(d: int, rest: seq<int>)
    ensures Distinct([d] + rest) <==> d !in rest && Distinct(rest)
  {
    var days := [d] + rest;
    if Distinct(days) {
      forall i | 0 <= i < |rest| ensures rest[i] != d {
        assert days[0] != days[i + 1];
      }
      forall i, j | 0 <= i < j < |rest| ensures rest[i] != rest[j] {
        assert days[i + 1] != days[j + 1];
      }
    }
  }

  lemma GoodDaysCons(stored: seq<int>, seen: set<int>, d: int, rest: seq<int>)
    ensures GoodDays(stored, seen, [d] + rest) <==>
            IsMonthDay(d) && d !in stored && d !in seen && GoodDays(stored, seen + {d}, rest)
  {
    var days := [d] + rest;
    assert forall x :: x in days <==> x == d || x in rest;
    DistinctCons(d, rest);
  }

  lemma {:induction false} LoopErrorsIff(stored: seq<int>, seen: set<int>, days: seq<int>)
    ensures LoopErrors(stored, seen, days) == [] <==> GoodDays(stored, seen, days)
    decreases days
  {
    if days != [] {
      LoopErrorsIff(stored, seen + {days[0]}, days[1..]);
      GoodDaysCons(stored, seen, days[0], days[1..]);
      assert days == [days[0]] + days[1..];
    }
  }

  /** `Months` records no error exactly for the day lists it should take. */
  lemma MonthDayErrorsIff(stored: seq<int>, days: seq<int>)
    ensures MonthDayErrors(stored, days) == [] <==> MonthDaysOk(stored, days)
  {
    if |days| >= 2 {
      LoopErrorsIff(stored, {}, days);
    }
  }

  /** The times written before the first piece that is not a time. */
  function TimesBeforeBad(pieces: seq<string>): seq<int> {
    if pieces == [] || ParseTime(pieces[0]).None? then []
    else [ParseTime(pieces[0]).value] + TimesBeforeBad(pieces[1..])
  }

  predicate AllTimes(pieces: seq<string>) {
    forall piece | piece in pieces :: ParseTime(piece).Some?
  }

  const UTC := "UTC"

  /** The expression handed to the cron parser. */
  function WithLocation(expr: string): string {
    if "TZ=" <= expr || "CRON_TZ=" <= expr then expr else "CRON_TZ=" + UTC + " " + expr
  }

  function Do(lib: Lib, p: Plan, c: Call): Plan {
    match c
    case Every(n) =>
      var q := p.(interval := n);
      if n <= 0 then Raise(q, Plain(ErrInvalidInterval)) else q
    case EveryDuration(d) => Choose(p.(interval := 0, duration := d), Duration)
    case EveryText(text) =>
      (match lib.duration(text)
       case Success(d) => Choose(p.(duration := d), Duration)
       case Failure(e) => Choose(Raise(p.(duration := 0), e), Duration))
    case EveryOther => Raise(p, Plain(ErrInvalidIntervalType))
    case In(u) => Choose(p, u)
    case OnMonthDays(days) =>
      Choose(p.(monthDays := p.monthDays + days, immediately := false,
                error := FoldFrom(p.error, MonthDayErrors(p.monthDays, days))), Months)
    case On(day) =>
      Choose(p.(weekdays := if day in p.weekdays then p.weekdays else p.weekdays + [day],
                immediately := false), Weeks)
    case AtTexts(text) =>
      var pieces := Split(text, ';');
      var q := p.(runAt := InsertAll(p.runAt, TimesBeforeBad(pieces)));
      if AllTimes(pieces) then q else Raise(q, Plain(ErrUnsupportedTimeFormat))
    case AtTime(time) => p.(runAt := Insert(p.runAt, time))
    case AtOther => Raise(p, Plain(ErrUnsupportedTimeFormat))
    case Now(now) => Choose(p, Once).(runAt := Insert(p.runAt, now.time))
    case StartAt(instant) => p.(startAt := Some(instant), immediately := false)
    case Cron(expr, withSeconds) =>
      p.(unit := Crontab, immediately := false,
         error := match lib.cron(WithLocation(expr), withSeconds)
                  case None => p.error
                  case Some(e) => Some(WrapOrError(Some(e), Plain(ErrCronParseFailure))))
  }

  function DoAll(lib: Lib, p: Plan, cs: seq<Call>): Plan
    decreases cs
  {
    if cs == [] then p else DoAll(lib, Do(lib, p, cs[0]), cs[1..])
  }

  // --- The schedule text ---------------------------------------------------------------

  /** The error of an integer that does not parse. */
  const NOT_AN_INTEGER := Library("invalid syntax")

  /** The entries of the unit table that choose a unit. */
  function UnitOf(word: string): Option<Unit> {
    if word == "millisecond" || word == "milliseconds" then Some(Milliseconds)
    else if word == "second" || word == "seconds" then Some(Seconds)
    else if word == "minute" || word == "minutes" then Some(Minutes)
    else if word == "hour" || word == "hours" then Some(Hours)
    else if word == "day" || word == "days" then Some(Days)
    else if word == "week" || word == "weeks" then Some(Weeks)
    else None
  }

  /** The entries that choose a weekday. */
  function DayOf(word: string): Option<Weekday> {
    if word == "monday" then Some(Monday)
    else if word == "tuesday" then Some(Tuesday)
    else if word == "wednesday" then Some(Wednesday)
    else if word == "thursday" then Some(Thursday)
    else if word == "friday" then Some(Friday)
    else if word == "saturday" then Some(Saturday)
    else if word == "sunday" then Some(Sunday)
    else None
  }

  /** The scheduling function behind a word of the unit table. */
  function Lookup(word: string): Option<Call> {
    if UnitOf(word).Some? then Some(In(UnitOf(word).value))
    else if DayOf(word).Some? then Some(On(DayOf(word).value))
    else if word == "midday" then Some(AtTexts("12:00"))
    else None
  }

  /** The integers of a list of texts, if they all are integers. */
  function ParseInts(texts: seq<string>): Option<seq<int>> {
    if texts == [] then Some([])
    else match (Atoi(texts[0]), ParseInts(texts[1..]))
      case (Some(n), Some(rest)) => Some([n] + rest)
      case _ => None
  }

  function ParseDays(text: string): Option<seq<int>> {
    ParseInts(Split(text, ','))
  }

  function PeriodCall(token: string): Call {
    match Atoi(token)
    case Some(n) => Every(n)
    case None => EveryText(token)
  }

  /** The third token, and for "monthdays" the fourth. */
  function Qualify(lib: Lib, p: Plan, tokens: seq<string>): Plan
    requires |tokens| > 2
  {
    var word := Lower(tokens[2]);
    if word == "monthdays" then
      if |tokens| < 4 then Raise(p, Plain(ErrInvalidScheduleType))
      else match ParseDays(tokens[3])
        case Some(days) => Do(lib, p, OnMonthDays(days))
        case None => Do(lib, Raise(p, NOT_AN_INTEGER), OnMonthDays([]))
    else match Lookup(word)
      case Some(c) => Do(lib, p, c)
      case None => Raise(p, Plain(ErrInvalidSchedulingUnit))
  }

  /** `ParseSchedule`; the two instants are its two readings of the clock. */
  function Parse(lib: Lib, p: Plan, text: string, first: Instant, second: Instant): Plan {
    if text == "" || Lower(text) == "now" then
      Do(lib, p.(unit := Once, startAt := Some(first), immediately := true), Now(second))
    else
      var tokens := Split(text, ' ');
      if |tokens| < 2 then Raise(p, Plain(ErrInvalidScheduleType))
      else if Lower(tokens[0]) == "every" then
        var q := Do(lib, p, PeriodCall(tokens[1]));
        if |tokens| > 2 then Qualify(lib, q, tokens) else q
      else if Lower(tokens[0]) == "at" then Do(lib, p, AtTexts(tokens[1]))
      else if Lower(tokens[0]) == "cron" then Do(lib, p, Cron(tokens[1], true))
      else Raise(p, Plain(ErrInvalidScheduleType))
  }

  // --- What every sequence of calls keeps ---------------------------------------------

  predicate AllDayTimes(s: seq<int>) {
    forall t | t in s :: 0 <= t < DAY
  }

  predicate PlanInv(p: Plan) {
    StrictlyIncreasing(p.runAt) && AllDayTimes(p.runAt) && Distinct(p.weekdays)
  }

  /** `q` may come after `p`: a plan with an error keeps having one, and no locked unit is
      left, but for Cron. */
  predicate MayFollow(p: Plan, q: Plan, viaCron: bool) {
    (p.error.Some? ==> q.error.Some?) &&
    (p.unit == Crontab ==> q.unit == Crontab) &&
    (p.unit == Duration ==> q.unit == Duration || (viaCron && q.unit == Crontab))
  }

  lemma {:induction false} TimesAreDayTimes(pieces: seq<string>)
    ensures AllDayTimes(TimesBeforeBad(pieces))
  {
    if pieces != [] && ParseTime(pieces[0]).Some? {
      TimesAreDayTimes(pieces[1..]);
    }
  }

  lemma InsertsDayTimes(s: seq<int>, ts: seq<int>)
    requires StrictlyIncreasing(s) && AllDayTimes(s) && AllDayTimes(ts)
    ensures StrictlyIncreasing(InsertAll(s, ts)) && AllDayTimes(InsertAll(s, ts))
  {
    InsertAllIntoSorted(s, ts);
    forall t | t in InsertAll(s, ts) ensures 0 <= t < DAY {
      assert t in Elements(InsertAll(s, ts));
    }
  }

  lemma DoKeeps(lib: Lib, p: Plan, c: Call)
    requires PlanInv(p)
    ensures PlanInv(Do(lib, p, c))
    ensures MayFollow(p, Do(lib, p, c), c.Cron?)
  {
    match c
    case AtTexts(text) =>
      TimesAreDayTimes(Split(text, ';'));
      InsertsDayTimes(p.runAt, TimesBeforeBad(Split(text, ';')));
    case AtTime(time) => InsertsDayTime(p.runAt, time);
    case Now(now) => InsertsDayTime(p.runAt, now.time);
    case OnMonthDays(days) => FoldKeeps(p.error, MonthDayErrors(p.monthDays, days));
    case _ =>
  }

  /** The call is one of Cron with an expression that does not parse. */
  predicate BadCron(lib: Lib, c: Call) {
    c.Cron? && lib.cron(WithLocation(c.expr), c.withSeconds).Some?
  }

  lemma RaiseKeeps(p: Plan, err: Error)
    ensures KeepsError(p.error, Raise(p, err).error)
  {
    if p.error.Some? {
      KeepsErrorReflexive(p.error);
      WrapOrErrorKeepsOlder(p.error.value, err, p.error.value);
    }
  }

  lemma ChooseKeeps(p: Plan, u: Unit)
    ensures KeepsError(p.error, Choose(p, u).error)
  {
    KeepsErrorReflexive(p.error);
    RaiseKeeps(p, Plain(ErrInvalidIntervalUnitsSelection));
  }

  /** A recorded error can still be found by unwrapping after any call but a bad Cron. */
  lemma CallKeepsError(lib: Lib, p: Plan, c: Call)
    requires !BadCron(lib, c)
    ensures KeepsError(p.error, Do(lib, p, c).error)
  {
    KeepsErrorReflexive(p.error);
    match c
    case Every(n) => RaiseKeeps(p.(interval := n), Plain(ErrInvalidInterval));
    case EveryDuration(d) => ChooseKeeps(p.(interval := 0, duration := d), Duration);
    case EveryText(text) =>
      match lib.duration(text) {
        case Success(d) => ChooseKeeps(p.(duration := d), Duration);
        case Failure(e) =>
          var q := Raise(p.(duration := 0), e);
          RaiseKeeps(p.(duration := 0), e);
          ChooseKeeps(q, Duration);
          KeepsErrorTwice(p.error, q.error, Choose(q, Duration).error);
      }
    case EveryOther => RaiseKeeps(p, Plain(ErrInvalidIntervalType));
    case In(u) => ChooseKeeps(p, u);
    case OnMonthDays(days) =>
      var q := p.(monthDays := p.monthDays + days, immediately := false,
                  error := FoldFrom(p.error, MonthDayErrors(p.monthDays, days)));
      FoldKeeps(p.error, MonthDayErrors(p.monthDays, days));
      ChooseKeeps(q, Months);
      KeepsErrorTwice(p.error, q.error, Choose(q, Months).error);
    case On(day) => ChooseKeeps(p.(weekdays := Do(lib, p, c).weekdays, immediately := false), Weeks);
    case AtTexts(text) => RaiseKeeps(p.(runAt := Do(lib, p, c).runAt), Plain(ErrUnsupportedTimeFormat));
    case AtOther => RaiseKeeps(p, Plain(ErrUnsupportedTimeFormat));
    case Now(now) => ChooseKeeps(p, Once);
    case _ =>
  }

  /** Over every sequence of calls, the first error recorded stays in the unwrap chain
      unless a Cron expression does not parse. */
  lemma {:induction false} CallsKeepError(lib: Lib, p: Plan, cs: seq<Call>)
    requires forall c | c in cs :: !BadCron(lib, c)
    ensures KeepsError(p.error, DoAll(lib, p, cs).error)
    decreases cs
  {
    if cs == [] {
      KeepsErrorReflexive(p.error);
    } else {
      assert cs[0] in cs && forall c | c in cs[1..] :: c in cs;
      CallKeepsError(lib, p, cs[0]);
      CallsKeepError(lib, Do(lib, p, cs[0]), cs[1..]);
      KeepsErrorTwice(p.error, Do(lib, p, cs[0]).error, DoAll(lib, p, cs).error);
    }
  }

  /** One that does not parse puts its own error in the place of whatever was recorded: only
      that error, and what the cron parser's error wraps, are found from then on. */
  lemma BadCronForgets(lib: Lib, p: Plan, c: Call, older: Error)
    requires BadCron(lib, c)
    ensures Do(lib, p, c).error.Some?
    ensures Is(Do(lib, p, c).error.value, older) <==>
            older == Do(lib, p, c).error.value || Is(lib.cron(WithLocation(c.expr), c.withSeconds).value, older)
  {
    var e := lib.cron(WithLocation(c.expr), c.withSeconds).value;
    var failure := Plain(ErrCronParseFailure);
    assert Chain(failure) == [failure];
    var w := Wrap(failure, e);
    assert Chain(w) == [w] + Chain(e);
  }

  lemma InsertsDayTime(s: seq<int>, t: DayTime)
    requires StrictlyIncreasing(s) && AllDayTimes(s)
    ensures StrictlyIncreasing(Insert(s, t)) && AllDayTimes(Insert(s, t))
  {
    InsertsDayTimes(s, [t]);
    assert InsertAll(s, [t]) == InsertAll(Insert(s, t), []);
  }

  /** Over every sequence of calls: run times strictly increasing and within the day,
      weekdays distinct, a recorded error never forgotten, Crontab never left, and Duration
      left only through Cron. */
  lemma {:induction false} CallsKeep(lib: Lib, p: Plan, cs: seq<Call>)
    requires PlanInv(p)
    ensures PlanInv(DoAll(lib, p, cs))
    ensures MayFollow(p, DoAll(lib, p, cs), exists c :: c in cs && c.Cron?)
    decreases cs
  {
    if cs != [] {
      DoKeeps(lib, p, cs[0]);
      CallsKeep(lib, Do(lib, p, cs[0]), cs[1..]);
      assert cs[0].Cron? ==> cs[0] in cs;
      assert forall c | c in cs[1..] :: c in cs;
    }
  }

  predicate Postpones(c: Call) {
    c.OnMonthDays? || c.On? || c.StartAt? || c.Cron?
  }

  /** Over every sequence of calls: no call makes a task start immediately, and it ceases to
      exactly by a call that says on which day or when it starts. */
  lemma {:induction false} ImmediateUntilPostponed(lib: Lib, p: Plan, cs: seq<Call>)
    ensures DoAll(lib, p, cs).immediately <==> p.immediately && forall c | c in cs :: !Postpones(c)
    decreases cs
  {
    if cs != [] {
      ImmediateUntilPostponed(lib, Do(lib, p, cs[0]), cs[1..]);
      assert Do(lib, p, cs[0]).immediately <==> p.immediately && !Postpones(cs[0]);
      assert forall c :: c in cs <==> c == cs[0] || c in cs[1..];
    }
  }

  /** One semicolon list: the run times become the strictly increasing list, which is
      unique, of the old ones and of those written before the first bad piece. */
  lemma SemicolonList(lib: Lib, p: Plan, text: string, sorted: seq<int>)
    requires PlanInv(p)
    requires StrictlyIncreasing(sorted)
    requires Elements(sorted) == Elements(p.runAt) + Elements(TimesBeforeBad(Split(text, ';')))
    ensures Do(lib, p, AtTexts(text)).runAt == sorted
    ensures p.error.None? ==>
              Do(lib, p, AtTexts(text)).error ==
              if AllTimes(Split(text, ';')) then None else Some(Plain(ErrUnsupportedTimeFormat))
  {
    var q := Do(lib, p, AtTexts(text));
    InsertAllIntoSorted(p.runAt, TimesBeforeBad(Split(text, ';')));
    SortedIsUnique(q.runAt, sorted);
  }

  /** A list without a bad piece gives every time in it. */
  lemma {:induction false} GoodListIsAllTimes(pieces: seq<string>)
    requires AllTimes(pieces)
    ensures |TimesBeforeBad(pieces)| == |pieces|
    ensures forall i | 0 <= i < |pieces| :: Some(TimesBeforeBad(pieces)[i]) == ParseTime(pieces[i])
  {
    if pieces != [] {
      assert forall piece | piece in pieces[1..] :: piece in pieces;
      assert pieces[0] in pieces;
      GoodListIsAllTimes(pieces[1..]);
    }
  }

  /** A bad piece: exactly the times before the first of them. */
  lemma {:induction false} BadListIsPrefix(pieces: seq<string>, bad: nat)
    requires bad < |pieces| && ParseTime(pieces[bad]).None? && AllTimes(pieces[..bad])
    ensures TimesBeforeBad(pieces) == TimesBeforeBad(pieces[..bad])
    ensures |TimesBeforeBad(pieces)| == bad
    ensures !AllTimes(pieces)
  {
    assert pieces[bad] in pieces;
    if bad > 0 {
      assert pieces[0] in pieces[..bad];
      assert pieces[..bad][1..] == pieces[1..][..bad - 1];
      assert forall piece | piece in pieces[1..][..bad - 1] :: piece in pieces[..bad];
      BadListIsPrefix(pieces[1..], bad - 1);
    } else {
      assert pieces[..0] == [];
    }
  }

  // --- The validation -----------------------------------------------------------------

  /** What `Schedule` demands of a plan before it touches a table or a queue. */
  predicate Schedulable(p: Plan) {
    p.error.None? &&
    (p.weekdays == [] || p.unit == Weeks) &&
    (p.interval == 0 ==> p.unit in {Once, Duration, Crontab})
  }

  /** The errors of those checks, recorded like those of the calls. */
  function Checked(p: Plan): Plan {
    var q := if p.weekdays != [] && p.unit != Weeks then Raise(p, Plain(ErrWeekdayNotSupported)) else p;
    if p.interval == 0 && p.unit !in {Once, Duration, Crontab} then Raise(q, Plain(ErrInvalidInterval)) else q
  }

  /** They leave no error exactly for schedulable plans, and lose none. */
  lemma CheckedIffSchedulable(p: Plan)
    ensures Checked(p).error.None? <==> Schedulable(p)
    ensures KeepsError(p.error, Checked(p).error)
  {
    KeepsErrorReflexive(p.error);
    var q := if p.weekdays != [] && p.unit != Weeks then Raise(p, Plain(ErrWeekdayNotSupported)) else p;
    RaiseKeeps(p, Plain(ErrWeekdayNotSupported));
    RaiseKeeps(q, Plain(ErrInvalidInterval));
    KeepsErrorTwice(p.error, q.error, Checked(p).error);
  }
}
